/** C strings in the 1024-byte receive buffers of the servers, controllers and switches, and what a
    read leaves of the text that was there before. */
module CStrings {

  const BUFFER_SIZE := 1024
  const NUL := '\0'

  /** Position of the first `c`, or the length of `s` when there is none. */
  function Find(s: string, c: char): (k: nat)
    ensures k <= |s| && forall i | 0 <= i < k :: s[i] != c
    ensures k < |s| ==> s[k] == c
  {
    if s == "" || s[0] == c then 0 else 1 + Find(s[1..], c)
  }

  lemma FindIs(s: string, c: char, k: nat)
    requires k <= |s| && (k < |s| ==> s[k] == c)
    requires forall i | 0 <= i < k :: s[i] != c
    ensures Find(s, c) == k
  {
  }

  /** `read` puts the message at the front of the buffer and leaves the rest of it alone. */
  function Overwrite(buffer: seq<char>, msg: string): (r: seq<char>)
    requires |msg| <= |buffer|
    ensures |r| == |buffer|
  {
    msg + buffer[|msg|..]
  }

  /** The C string at the front of a buffer. */
  function CString(buffer: seq<char>): string { buffer[..Find(buffer, NUL)] }

  function Zeros(n: nat): (z: seq<char>)
    ensures |z| == n && forall i | 0 <= i < n :: z[i] == NUL
  {
    seq(n, _ => NUL)
  }

  /** A buffer that was zeroed and then given a text. */
  function Cleared(text: string): (r: seq<char>)
    requires |text| <= BUFFER_SIZE
    ensures |r| == BUFFER_SIZE
  {
    text + Zeros(BUFFER_SIZE - |text|)
  }

  /** What is still behind a message of length `n` that was read over `left`. */
  function Tail(left: string, n: nat): string { if n < |left| then left[n..] else "" }

  /** A message read into a buffer that is not cleared first is followed by the end of the text that
      it does not cover; and the buffer holds that string and zeros, as if it had been written there. */
  lemma StaleTail(left: string, msg: string)
    requires |left| < BUFFER_SIZE && |msg| < BUFFER_SIZE && NUL !in left && NUL !in msg
    ensures CString(Overwrite(Cleared(left), msg)) == msg + Tail(left, |msg|)
    ensures Overwrite(Cleared(left), msg) == Cleared(msg + Tail(left, |msg|))
  {
    var text := msg + Tail(left, |msg|);
    assert Overwrite(Cleared(left), msg) == Cleared(text);
    CStringOfCleared(text) by {
      forall i | 0 <= i < |text| ensures text[i] != NUL { assert text[i] in msg || text[i] in left; }
    }
  }

  lemma CStringOfCleared(text: string)
    requires |text| < BUFFER_SIZE && forall i | 0 <= i < |text| :: text[i] != NUL
    ensures CString(Cleared(text)) == text
  {
    FindIs(Cleared(text), NUL, |text|);
  }
}
