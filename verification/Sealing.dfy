/**
 * Sealing primitives, symbolically: a sealed blob carries the key and the associated data it was
 * made with, a derived key is the term it was derived by, and a random key is its own seed.
 */
module Sealing {
  import opened Wrappers
  import opened Utf8

  datatype KdfParams = KdfParams(salt: Bytes, mCostKib: nat, tCost: nat, pCost: nat)

  /** Input of the key-derivation step. */
  datatype Material =
    | Machine(signature: Bytes)
    | Stretched(passphrase: string, kdf: KdfParams)

  datatype Key =
    | Random(seed: nat)
    | Expanded(ikm: Material, salt: Option<Bytes>, info: string)

  /** What can be sealed: a value's bytes, or the 32 bytes of a key. */
  datatype Plaintext = Value(bytes: Bytes) | KeyBytes(key: Key) {
    function Length(): nat {
      match this
      case Value(bs) => |bs|
      case KeyBytes(_) => 32
    }
  }

  const NONCE_BYTES := 12
  const TAG_BYTES := 16

  /** A nonce and a ciphertext; `Junk` is anything the cipher did not produce. */
  datatype Sealed = Sealed(nonce: nat, key: Key, aad: string, plain: Plaintext) | Junk(size: nat) {
    function Length(): nat {
      match this
      case Sealed(_, _, _, plain) => NONCE_BYTES + plain.Length() + TAG_BYTES
      case Junk(size) => size
    }
  }

  datatype SealError = TooShort | NotAuthentic | WrongLength

  function Seal(key: Key, aad: string, plain: Plaintext, nonce: nat): Sealed {
    Sealed(nonce, key, aad, plain)
  }

  function OpenSealed(key: Key, aad: string, blob: Sealed): Result<Plaintext, SealError> {
    if blob.Length() <= NONCE_BYTES + TAG_BYTES then Failure(TooShort)
    else if blob.Sealed? && blob.key == key && blob.aad == aad then Success(blob.plain)
    else Failure(NotAuthentic)
  }

  /** A sealed blob opens exactly under its own key and context, and only when it is not empty. */
  lemma {:induction false} SealRoundTripIff(
    key: Key, aad: string, plain: Plaintext, nonce: nat, key': Key, aad': string)
    ensures OpenSealed(key', aad', Seal(key, aad, plain, nonce)) == Success(plain)
      <==> key' == key && aad' == aad && plain.Length() > 0
    ensures OpenSealed(key', aad', Seal(key, aad, plain, nonce)).Success?
      ==> OpenSealed(key', aad', Seal(key, aad, plain, nonce)) == Success(plain)
  {
  }

  const MACHINE_INFO := "souveraine-secrets/machine-kek/v2"
  const PASSPHRASE_INFO := "souveraine-secrets/passphrase-kek/v2"
  const MACHINE_SLOT := "machine"
  const PASSPHRASE_SLOT := "passphrase"

  function MachineKek(machineIkm: Bytes): Key {
    Expanded(Machine(machineIkm), None, MACHINE_INFO)
  }

  function PassphraseKek(passphrase: string, kdf: KdfParams, machineIkm: Bytes): Key {
    Expanded(Stretched(passphrase, kdf), Some(machineIkm), PASSPHRASE_INFO)
  }

  function WrapKey(kek: Key, key: Key, slot: string, nonce: nat): Sealed {
    Seal(kek, slot, KeyBytes(key), nonce)
  }

  /** The unwrapped blob must be exactly as long as a key. */
  function UnwrapKey(kek: Key, wrapped: Sealed, slot: string): Result<Key, SealError> {
    match OpenSealed(kek, slot, wrapped)
    case Failure(e) => Failure(e)
    case Success(KeyBytes(key)) => Success(key)
    case Success(Value(_)) => Failure(WrongLength)
  }
}
