/**
 * GenerateSecureRandomPassword from lib/ollama.go: after a length check, a
 * buffer of random bytes is overwritten in place, each byte replaced by the
 * alphabet character at its value modulo the alphabet's size. The random
 * bytes that crypto/rand would supply are an input; None stands for a failed
 * read. The buffer holds each byte as the character with the same code, so
 * that the string conversion at the end is the identity on the ASCII alphabet.
 */
module Password {
  import opened Basics

  const Alphabet: string := "ABCDEFGHIJKLMNOPQRSTUVWXYZabcdefghijklmnopqrstuvwxyz0123456789!@#$%&*"
  const MinLength: int := 12

  datatype PasswordError =
    | TooShort      // "password length must be at least 12 characters"
    | RandomFailed  // "error generating password: ..."

  /** The password character a random byte becomes. */
  function CharFor(b: byte): (c: char)
    ensures c in Alphabet
  {
    Alphabet[b as int % |Alphabet|]
  }

  /**
   * `random` is the outcome of rand.Read on the `length`-byte buffer: when it
   * succeeds it fills the whole buffer.
   */
  method GenerateSecureRandomPassword(length: int, random: Option<seq<byte>>)
    returns (password: string, err: Option<PasswordError>)
    requires length >= MinLength && random.Some? ==> |random.value| == length
    ensures length < MinLength ==> password == "" && err == Some(TooShort)
    ensures length >= MinLength && random.None? ==> password == "" && err == Some(RandomFailed)
    ensures length >= MinLength && random.Some? ==>
      && err.None?
      && |password| == length
      && (forall i :: 0 <= i < length ==> password[i] == Alphabet[random.value[i] as int % 69])
      && (forall i :: 0 <= i < length ==> password[i] in Alphabet)
  {
    if length < MinLength {
      return "", Some(TooShort);
    }
    if random.None? {
      return "", Some(RandomFailed);
    }
    var bytes := random.value;
    var buffer := new char[length](i requires 0 <= i < length => bytes[i] as int as char);
    var i := 0;
    while i < length
      invariant 0 <= i <= length
      invariant forall k :: 0 <= k < i ==> buffer[k] == CharFor(bytes[k])
      invariant forall k :: i <= k < length ==> buffer[k] == bytes[k] as int as char
    {
      buffer[i] := Alphabet[buffer[i] as int % |Alphabet|];
      i := i + 1;
    }
    password, err := buffer[..], None;
  }
}
