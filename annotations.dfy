/** The key/value extraction applied to annotation lines: `commentRe.findall`, with
    `commentRe` = `\s*([^:]+):\s+((?:\s*[^:\s]|:[^\s])+)(?=\s+\w+: |$)`.

    The matcher is written out as the backtracking search behaves on this pattern:
    - `\s*([^:]+):` can only end at the first ':' at or after the start, and the key is the
      text before it with its leading whitespace removed (one character is kept when that
      text is all whitespace, since `[^:]+` needs one);
    - `\s+` takes the whole whitespace run; giving some back never helps;
    - each repetition of the value group matches in at most one way at a given position, so
      the repetitions form a single chain, and greedy `+` settles on the LAST chain position
      at which the lookahead holds;
    - `findall` restarts at the end of a match, and after a failed attempt at the next
      character. */
module Annotations {
  import opened Wrappers

  /** `\s` on a str pattern: the characters Python's `str.isspace` accepts. */
  predicate IsSpace(c: char)
  {
    var n := c as int;
    (9 <= n <= 13) || (28 <= n <= 32) || n == 0x85 || n == 0xA0 || n == 0x1680
    || (0x2000 <= n <= 0x200A) || n == 0x2028 || n == 0x2029 || n == 0x202F
    || n == 0x205F || n == 0x3000
  }

  /** `\w`, on its ASCII part. */
  predicate IsWordChar(c: char)
  {
    ('a' <= c <= 'z') || ('A' <= c <= 'Z') || ('0' <= c <= '9') || c == '_'
  }

  /** Where a greedy `\s*` starting at `q` stops. */
  function SkipSpace(s: string, q: nat): (k: nat)
    requires q <= |s|
    ensures q <= k <= |s|
    ensures forall i :: q <= i < k ==> IsSpace(s[i])
    ensures k < |s| ==> !IsSpace(s[k])
    decreases |s| - q
  {
    if q < |s| && IsSpace(s[q]) then SkipSpace(s, q + 1) else q
  }

  /** Where a greedy `\w*` starting at `q` stops. */
  function SkipWord(s: string, q: nat): (k: nat)
    requires q <= |s|
    ensures q <= k <= |s|
    ensures forall i :: q <= i < k ==> IsWordChar(s[i])
    ensures k < |s| ==> !IsWordChar(s[k])
    decreases |s| - q
  {
    if q < |s| && IsWordChar(s[q]) then SkipWord(s, q + 1) else q
  }

  /** The first ':' at or after `p`. */
  function NextColon(s: string, p: nat): (c: Option<nat>)
    requires p <= |s|
    ensures c.Some? ==> p <= c.value < |s| && s[c.value] == ':'
    ensures c.Some? ==> forall i :: p <= i < c.value ==> s[i] != ':'
    ensures c.None? ==> forall i :: p <= i < |s| ==> s[i] != ':'
    decreases |s| - p
  {
    if p == |s| then None
    else if s[p] == ':' then Some(p)
    else NextColon(s, p + 1)
  }

  /** One repetition of `(?:\s*[^:\s]|:[^\s])` at `q`: where it ends, if it matches.
      Every repetition ends on a non-whitespace character. */
  function UnitEnd(s: string, q: nat): (e: Option<nat>)
    requires q <= |s|
    ensures e.Some? ==> q < e.value <= |s| && !IsSpace(s[e.value - 1])
  {
    if q == |s| then None
    else if s[q] == ':' then
      (if q + 1 < |s| && !IsSpace(s[q + 1]) then Some(q + 2) else None)
    else
      var k := SkipSpace(s, q);
      if k < |s| && s[k] != ':' then Some(k + 1) else None
  }

  /** The lookahead `(?=\s+\w+: |$)` at `e`; `$` also holds just before a final newline. */
  predicate LookaheadHolds(s: string, e: nat)
    requires e <= |s|
  {
    || e == |s|
    || (e + 1 == |s| && s[e] == '\n')
    || (var w := SkipSpace(s, e);
        var u := SkipWord(s, w);
        e < w && w < u && u + 1 < |s| && s[u] == ':' && s[u + 1] == ' ')
  }

  /** The value group `(...)+` followed by the lookahead, starting at `q`: the end of the
      last repetition on the chain after which the lookahead holds. */
  function ValueEnd(s: string, q: nat): (e: Option<nat>)
    requires q <= |s|
    ensures e.Some? ==> q < e.value <= |s| && !IsSpace(s[e.value - 1])
    ensures e.Some? ==> LookaheadHolds(s, e.value)
    decreases |s| - q
  {
    var unit := UnitEnd(s, q);
    if unit.None? then None
    else
      var next := unit.value;
      var deeper := ValueEnd(s, next);
      if deeper.Some? then deeper
      else if LookaheadHolds(s, next) then Some(next)
      else None
  }

  /** What one extracted pair always looks like: a non-empty key free of ':' that starts with
      a non-whitespace character unless it is a single character, and a non-empty value that
      starts and ends with a non-whitespace character. */
  predicate WellFormed(pair: (string, string))
  {
    var (key, value) := pair;
    && |key| > 0 && ':' !in key && (|key| > 1 ==> !IsSpace(key[0]))
    && |value| > 0 && !IsSpace(value[0]) && !IsSpace(value[|value| - 1])
  }

  /** The key `\s*([^:]+)` captures between `p` and the ':' at `c`: the text with its leading
      whitespace removed, keeping one character when the text is all whitespace. */
  function KeyBefore(s: string, p: nat, c: nat): (key: string)
    requires p < c < |s| && s[c] == ':'
    requires forall i :: p <= i < c ==> s[i] != ':'
    ensures |key| > 0 && ':' !in key && (|key| > 1 ==> !IsSpace(key[0]))
  {
    var k := SkipSpace(s, p);
    var keyStart := if k < c then k else c - 1;
    var key := s[keyStart..c];
    assert key[0] == s[keyStart];
    assert ':' !in key by {
      forall i | 0 <= i < |key| ensures key[i] != ':' { assert key[i] == s[keyStart + i]; }
    }
    key
  }

  /** One attempt of `commentRe.match` at position `p`: the key, the value and where the
      match ends. A match never ends before it starts, and it needs a ':' at or after `p`. */
  function MatchAt(s: string, p: nat): (m: Option<(string, string, nat)>)
    requires p <= |s|
    ensures m.Some? ==> p < m.value.2 <= |s| && WellFormed((m.value.0, m.value.1))
    ensures (forall i :: p <= i < |s| ==> s[i] != ':') ==> m.None?
  {
    match NextColon(s, p)
    case None => None
    case Some(c) =>
      var v := SkipSpace(s, c + 1);
      if c == p || v == c + 1 then None
      else
        match ValueEnd(s, v)
        case None => None
        case Some(e) =>
          var value := s[v..e];
          assert value[0] == s[v] && value[|value| - 1] == s[e - 1];
          Some((KeyBefore(s, p, c), value, e))
  }

  /** `findall` from position `p`: after a match the search resumes where it ended, after a
      failed attempt at the next character. */
  function PairsFrom(s: string, p: nat): (pairs: seq<(string, string)>)
    requires p <= |s|
    ensures forall i :: 0 <= i < |pairs| ==> WellFormed(pairs[i])
    ensures (forall i :: p <= i < |s| ==> s[i] != ':') ==> pairs == []
    decreases |s| - p
  {
    if p == |s| then []
    else
      match MatchAt(s, p)
      case None => PairsFrom(s, p + 1)
      case Some((key, value, e)) => [(key, value)] + PairsFrom(s, e)
  }

  /** `commentRe.findall(text)`, as (key, value) pairs in the order they appear. */
  function Pairs(text: string): (pairs: seq<(string, string)>)
    ensures forall i :: 0 <= i < |pairs| ==> WellFormed(pairs[i])
    ensures ':' !in text ==> pairs == []
  {
    PairsFrom(text, 0)
  }
}
