/** Idealised cryptography.

Keys and sealed boxes are terms of a free algebra, so key derivation is
injective and a box opens exactly with the key and the associated data it was
sealed under. */
module Crypto {

  datatype Option<+T> = None | Some(value: T)

  /** What a human types or writes down: a passphrase or a recovery phrase. */
  datatype Secret =
    | Words(text: string)
    | Phrase(entropy: nat)

  datatype Key =
    | Random(id: nat)
    | Derived(secret: Secret, salt: nat)
    | Subkey(parent: Key, context: string)

  datatype Sealed<+T> = Sealed(key: Key, plain: T, aad: string)

  function Seal<T>(key: Key, plain: T, aad: string): Sealed<T> {
    Sealed(key, plain, aad)
  }

  function Open<T>(key: Key, box: Sealed<T>, aad: string): Option<T> {
    if box.key == key && box.aad == aad then Some(box.plain) else None
  }
}
