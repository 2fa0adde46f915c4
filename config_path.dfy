/**
 * Configuration keys: path segments joined by the key delimiter, the prefix
 * test used to select keys, and the next-segment extraction used for child keys.
 */
module ConfigPath {
  import opened Wrappers

  const KeyDelimiter: char := ':'

  /** `ConfigurationPath.Combine`: the segments joined with the delimiter, first to last. */
  function Join(segments: seq<string>): string
  {
    if |segments| == 0 then ""
    else if |segments| == 1 then segments[0]
    else Join(segments[..|segments| - 1]) + [KeyDelimiter] + segments[|segments| - 1]
  }

  /** Joining two non-empty segment lists puts exactly one delimiter between their joins. */
  lemma {:induction false} JoinConcat(a: seq<string>, b: seq<string>)
    requires a != [] && b != []
    ensures Join(a + b) == Join(a) + [KeyDelimiter] + Join(b)
    decreases |b|
  {
    var ab := a + b;
    if |b| == 1 {
      assert ab[..|ab| - 1] == a;
    } else {
      var b' := b[..|b| - 1];
      assert ab[..|ab| - 1] == a + b';
      JoinConcat(a, b');
    }
  }

  /** `char.IsWhiteSpace`: the Unicode space, line and paragraph separators, the
      control characters U+0009 to U+000D, and U+0085. */
  predicate IsWhiteSpace(c: char) {
    || ('\t' <= c <= '\r')
    || c == ' ' || c == '\U{85}' || c == '\U{A0}' || c == '\U{1680}'
    || ('\U{2000}' <= c <= '\U{200A}')
    || c == '\U{2028}' || c == '\U{2029}' || c == '\U{202F}' || c == '\U{205F}' || c == '\U{3000}'
  }

  /** `string.IsNullOrWhiteSpace`. */
  predicate IsNullOrWhiteSpace(s: Option<string>) {
    s.None? || forall i :: 0 <= i < |s.value| ==> IsWhiteSpace(s.value[i])
  }

  /** Ordinal `StartsWith`. */
  predicate StartsWith(s: string, prefix: string) {
    prefix <= s
  }

  /** `IndexOf` of one character from position `from` on: the first position at
      or after `from` holding `c`, or -1 when there is none. */
  function IndexOf(s: string, c: char, from: nat): (r: int)
    requires from <= |s|
    ensures r == -1 || from <= r < |s|
    ensures r != -1 ==> s[r] == c
    ensures forall i :: from <= i < |s| && (r == -1 || i < r) ==> s[i] != c
    decreases |s| - from
  {
    if from == |s| then -1
    else if s[from] == c then from
    else IndexOf(s, c, from + 1)
  }

  /** The segment of `key` that starts at `prefixLength` and runs up to the next
      delimiter, or to the end of the key when there is none. */
  function Segment(key: string, prefixLength: nat): (r: string)
    requires prefixLength <= |key|
    ensures prefixLength + |r| <= |key|
    ensures r == key[prefixLength..prefixLength + |r|]
    ensures KeyDelimiter !in r
    ensures prefixLength + |r| == |key| || key[prefixLength + |r|] == KeyDelimiter
  {
    var num := IndexOf(key, KeyDelimiter, prefixLength);
    if num >= 0 then key[prefixLength..num] else key[prefixLength..]
  }
}
