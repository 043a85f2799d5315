/** Byte strings. A Go string is a sequence of bytes, so topics, filters and
    client identifiers are byte sequences throughout this project. */
module Bytes {

  newtype Byte = x: int | 0 <= x < 256

  type Text = seq<Byte>

  const SLASH: Byte := 47   // '/'
  const PLUS_SIGN: Byte := 43    // '+'
  const HASH_SIGN: Byte := 35    // '#'

  /** Protocol levels of MQTT 3.1.1 and 5.0. */
  const V311 := 4
  const V50 := 5

  ghost predicate Distinct<T>(s: seq<T>)
  {
    forall i, j :: 0 <= i < j < |s| ==> s[i] != s[j]
  }

  datatype Option<+T> = None | Some(value: T)

  datatype Error =
    | Eof
    | UnexpectedEof
    | Malformed
    | ProtocolViolation
    | InvalidVarInt
    | InvalidQoS
    | InvalidTopic
    | UnsupportedVersion
    | ZeroPacketId
    | TooLarge

  datatype Result<+T> = Ok(value: T) | Err(error: Error) {
    predicate IsFailure() { Err? }
    function PropagateFailure<U>(): Result<U>
      requires Err?
    {
      Err(error)
    }
    function Extract(): T
      requires Ok?
    {
      value
    }
  }

  /** `strings.IndexByte`: the first position of `b` in `s`, or -1. */
  function IndexOf(s: Text, b: Byte): (i: int)
    ensures -1 <= i < |s|
    ensures i >= 0 ==> s[i] == b && b !in s[..i]
    ensures i == -1 <==> b !in s
  {
    if s == [] then -1
    else if s[0] == b then 0
    else
      var j := IndexOf(s[1..], b);
      assert s == [s[0]] + s[1..];
      if j == -1 then -1 else assert s[..j + 1] == [s[0]] + s[1..][..j]; j + 1
  }

  lemma {:induction false} IndexOfUnique(s: Text, b: Byte, i: nat)
    requires i < |s| && s[i] == b && b !in s[..i]
    ensures IndexOf(s, b) == i
  {
    if i > 0 {
      assert s[0] in s[..i] && s[..i] == [s[0]] + s[1..][..i - 1];
      IndexOfUnique(s[1..], b, i - 1);
    }
  }
}
