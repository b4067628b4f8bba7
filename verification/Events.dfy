/** Engine events, their wire mirror, and the two conversions between them. */
module Events {

  datatype Register = Cenno | HerVoice

  /** What the engine emits. Pressures are fractions of the context window. */
  datatype BackendEvent =
    | Token(content: string)
    | Reasoning(content: string)
    | Surfacing(source: string, content: string, priority: string)
    | Reflection(content: string)
    | Archivist(synthesis: string, pressure: real)
    | CompactionWarning(pressure: real, tier: nat)
    | ContextPressure(pressure: real, tokensUsed: nat, contextLimit: nat)
    | InferenceStrain(attempt: nat, status: nat, model: string)
    | ScheduleActive(name: string)
    | ScheduleComplete(name: string, silent: bool)
    | ToolCall(id: string, name: string, arguments: string, round: nat)
    | ToolResult(id: string, name: string, output: string, isError: bool)
    | SubconsciousToken(content: string)
    | SubconsciousToolCall(name: string, arguments: string)
    | SubconsciousToolResult(name: string, output: string, isError: bool)
    | SubconsciousHalt(reason: string, severity: string)
    | Atmosphere(preset: string)
    | Itinerary(route: string)
    | SubconsciousPass(active: bool)
    | Outfit(name: string)
    | Interstitial(text: string, register: Register)
    | Keepalive
    | PrimaryComplete
    | Error(message: string)
    | Done

  datatype WireCall = WireCall(id: string, name: string, arguments: string)

  /** A tool's answer on the wire: whether it failed is spelled out as a status string. */
  datatype WireReturn = WireReturn(status: string, output: string, id: string, name: string)

  datatype StreamEvent =
    | AssistantMessage(content: string)
    | ReasoningMessage(content: string)
    | ToolCallMessage(toolCall: WireCall, round: nat)
    | ToolReturnMessage(toolReturn: WireReturn)
    | WireSurfacing(source: string, content: string, priority: string)
    | WireReflection(content: string)
    | WireArchivist(synthesis: string, pressure: real)
    | WireCompactionWarning(pressure: real, tier: nat)
    | WireContextPressure(pressure: real, tokensUsed: nat, contextLimit: nat)
    | WireInferenceStrain(attempt: nat, status: nat, model: string)
    | WireScheduleActive(name: string)
    | WireScheduleComplete(name: string, silent: bool)
    | WireSubconsciousToken(content: string)
    | WireSubconsciousToolCall(name: string, arguments: string)
    | WireSubconsciousToolResult(name: string, output: string, isError: bool)
    | WireSubconsciousHalt(reason: string, severity: string)
    | WireSubconsciousPass(active: bool)
    | WireAtmosphere(preset: string)
    | WireItinerary(route: string)
    | WireOutfit(name: string)
    | WireInterstitial(text: string, register: Register)
    | WirePrimaryComplete
    | WireError(message: string)
    | WireDone
    | Ping

  function ToWire(e: BackendEvent): StreamEvent {
    match e
    case Token(content) => AssistantMessage(content)
    case Reasoning(content) => ReasoningMessage(content)
    case Surfacing(source, content, priority) => WireSurfacing(source, content, priority)
    case Reflection(content) => WireReflection(content)
    case Archivist(synthesis, pressure) => WireArchivist(synthesis, pressure)
    case CompactionWarning(pressure, tier) => WireCompactionWarning(pressure, tier)
    case ContextPressure(pressure, used, limit) => WireContextPressure(pressure, used, limit)
    case InferenceStrain(attempt, status, model) => WireInferenceStrain(attempt, status, model)
    case ScheduleActive(name) => WireScheduleActive(name)
    case ScheduleComplete(name, silent) => WireScheduleComplete(name, silent)
    case ToolCall(id, name, arguments, round) => ToolCallMessage(WireCall(id, name, arguments), round)
    case ToolResult(id, name, output, isError) =>
      ToolReturnMessage(WireReturn(if isError then "error" else "success", output, id, name))
    case SubconsciousToken(content) => WireSubconsciousToken(content)
    case SubconsciousToolCall(name, arguments) => WireSubconsciousToolCall(name, arguments)
    case SubconsciousToolResult(name, output, isError) => WireSubconsciousToolResult(name, output, isError)
    case SubconsciousHalt(reason, severity) => WireSubconsciousHalt(reason, severity)
    case SubconsciousPass(active) => WireSubconsciousPass(active)
    case Atmosphere(preset) => WireAtmosphere(preset)
    case Itinerary(route) => WireItinerary(route)
    case Outfit(name) => WireOutfit(name)
    case Interstitial(text, register) => WireInterstitial(text, register)
    case Keepalive => Ping
    case PrimaryComplete => WirePrimaryComplete
    case Error(message) => WireError(message)
    case Done => WireDone
  }

  function FromWire(e: StreamEvent): BackendEvent {
    match e
    case AssistantMessage(content) => Token(content)
    case ReasoningMessage(content) => Reasoning(content)
    case WireSurfacing(source, content, priority) => Surfacing(source, content, priority)
    case WireReflection(content) => Reflection(content)
    case WireArchivist(synthesis, pressure) => Archivist(synthesis, pressure)
    case WireCompactionWarning(pressure, tier) => CompactionWarning(pressure, tier)
    case WireContextPressure(pressure, used, limit) => ContextPressure(pressure, used, limit)
    case WireInferenceStrain(attempt, status, model) => InferenceStrain(attempt, status, model)
    case WireScheduleActive(name) => ScheduleActive(name)
    case WireScheduleComplete(name, silent) => ScheduleComplete(name, silent)
    case ToolCallMessage(call, round) => ToolCall(call.id, call.name, call.arguments, round)
    case ToolReturnMessage(ret) => ToolResult(ret.id, ret.name, ret.output, ret.status == "error")
    case WireSubconsciousToken(content) => SubconsciousToken(content)
    case WireSubconsciousToolCall(name, arguments) => SubconsciousToolCall(name, arguments)
    case WireSubconsciousToolResult(name, output, isError) => SubconsciousToolResult(name, output, isError)
    case WireSubconsciousHalt(reason, severity) => SubconsciousHalt(reason, severity)
    case WireSubconsciousPass(active) => SubconsciousPass(active)
    case WireAtmosphere(preset) => Atmosphere(preset)
    case WireItinerary(route) => Itinerary(route)
    case WireOutfit(name) => Outfit(name)
    case WireInterstitial(text, register) => Interstitial(text, register)
    case Ping => Keepalive
    case WirePrimaryComplete => PrimaryComplete
    case WireError(message) => Error(message)
    case WireDone => Done
  }

  /** The name of the frame an event travels in. */
  function MessageType(e: StreamEvent): string {
    match e
    case AssistantMessage(_) => "message"
    case ReasoningMessage(_) => "reasoning"
    case ToolCallMessage(_, _) => "tool_call"
    case ToolReturnMessage(_) => "tool_return"
    case WireSurfacing(_, _, _) => "souveraine_surfacing"
    case WireReflection(_) => "souveraine_reflection"
    case WireArchivist(_, _) => "souveraine_archivist"
    case WireCompactionWarning(_, _) => "compaction_warning"
    case WireContextPressure(_, _, _) => "context_pressure"
    case WireInferenceStrain(_, _, _) => "inference_strain"
    case WireScheduleActive(_) => "schedule_active"
    case WireScheduleComplete(_, _) => "schedule_complete"
    case WireSubconsciousToken(_) => "subconscious_token"
    case WireSubconsciousToolCall(_, _) => "subconscious_tool_call"
    case WireSubconsciousToolResult(_, _, _) => "subconscious_tool_result"
    case WireSubconsciousHalt(_, _) => "subconscious_halt"
    case WireSubconsciousPass(_) => "subconscious_pass"
    case WireAtmosphere(_) => "atmosphere"
    case WireItinerary(_) => "itinerary"
    case WireOutfit(_) => "outfit"
    case WireInterstitial(_, _) => "interstitial"
    case WirePrimaryComplete => "primary_complete"
    case WireError(_) => "error"
    case WireDone => "done"
    case Ping => "ping"
  }

  /** No engine event is changed by crossing the wire. */
  lemma {:induction false} WireRoundTrip(e: BackendEvent)
    ensures FromWire(ToWire(e)) == e
  {
  }

  /** A wire event survives the other way round exactly when its status is one the engine writes. */
  lemma {:induction false} WireRoundTripBackIff(e: StreamEvent)
    ensures ToWire(FromWire(e)) == e <==>
      (e.ToolReturnMessage? ==> e.toolReturn.status in {"error", "success"})
  {
  }
}
