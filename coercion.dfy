/** The second pass of `parse`: the two fixed key sets and the conversions `int(v)` and
    `float(v)` applied to the values of those keys. */
module Coercion {
  import opened Wrappers
  import opened Annotations

  /** `int_keys`: annotations whose values become integers. */
  const IntKeys: set<string> := {"Bytes_sent", "Rows_affected", "Rows_examined", "Rows_sent", "Thread_id"}

  /** `float_keys`: annotations whose values become floating point numbers. */
  const FloatKeys: set<string> := {"Lock_time", "Query_time"}

  /** A typed annotation value. A float keeps the literal that `float()` accepted: its binary
      value is not modelled. */
  datatype Value = Int(n: int) | Float(literal: string) | Text(text: string)

  /** No key is both an integer key and a float key, so each key gets one treatment. */
  lemma KeySetsDisjoint()
    ensures IntKeys !! FloatKeys
    ensures forall k :: k in IntKeys ==> k !in FloatKeys
  {
  }

  predicate IsDigit(c: char)
  {
    '0' <= c <= '9'
  }

  /** Python's `digitpart`: digits, with single underscores allowed between two digits. */
  predicate IsDigitPart(d: string)
  {
    && |d| > 0
    && forall i {:trigger d[i]} :: 0 <= i < |d| ==>
         IsDigit(d[i]) || (d[i] == '_' && 0 < i < |d| - 1 && IsDigit(d[i - 1]) && IsDigit(d[i + 1]))
  }

  /** The number the digits of `d` spell, underscores ignored. */
  function DigitsValue(d: string): nat
    decreases |d|
  {
    if |d| == 0 then 0
    else
      var last := d[|d| - 1];
      if IsDigit(last) then DigitsValue(d[..|d| - 1]) * 10 + (last as int - '0' as int)
      else DigitsValue(d[..|d| - 1])
  }

  function StripLeft(t: string): string
    decreases |t|
  {
    if |t| > 0 && IsSpace(t[0]) then StripLeft(t[1..]) else t
  }

  function StripRight(t: string): string
    decreases |t|
  {
    if |t| > 0 && IsSpace(t[|t| - 1]) then StripRight(t[..|t| - 1]) else t
  }

  /** The surrounding whitespace `int()` and `float()` ignore. */
  function Strip(t: string): string
  {
    StripRight(StripLeft(t))
  }

  predicate IsSign(c: char)
  {
    c == '+' || c == '-'
  }

  /** `int(v)` with base 10: optional surrounding whitespace, an optional sign and a digit part;
      anything else raises ValueError (None here). */
  function ParseInt(v: string): (r: Option<int>)
    ensures var t := Strip(v);
            r.Some? <==> IsDigitPart(t) || (|t| > 0 && IsSign(t[0]) && IsDigitPart(t[1..]))
    ensures var t := Strip(v);
            r.Some? && IsDigitPart(t) ==> r.value == DigitsValue(t) && r.value >= 0
    ensures var t := Strip(v);
            r.Some? && |t| > 0 && t[0] == '+' ==> r.value == DigitsValue(t[1..]) && r.value >= 0
    ensures var t := Strip(v);
            r.Some? && |t| > 0 && t[0] == '-' ==> r.value == -(DigitsValue(t[1..]) as int) && r.value <= 0
  {
    var t := Strip(v);
    assert IsDigitPart(t) ==> IsDigit(t[0]);
    if |t| > 0 && IsSign(t[0]) then
      if IsDigitPart(t[1..]) then
        var magnitude: int := DigitsValue(t[1..]);
        Some(if t[0] == '-' then -magnitude else magnitude)
      else None
    else if IsDigitPart(t) then Some(DigitsValue(t))
    else None
  }

  /** The index of the first occurrence of one of `cs` in `t`, or `|t|`. */
  function IndexOfAny(t: string, cs: set<char>): (i: nat)
    ensures i <= |t|
    ensures forall j :: 0 <= j < i ==> t[j] !in cs
    ensures i < |t| ==> t[i] in cs
    decreases |t|
  {
    if |t| == 0 || t[0] in cs then 0 else 1 + IndexOfAny(t[1..], cs)
  }

  /** `[digitpart] "." digitpart | digitpart ["."]` */
  predicate IsMantissa(m: string)
  {
    var d := IndexOfAny(m, {'.'});
    if d == |m| then IsDigitPart(m)
    else
      && (d > 0 || d + 1 < |m|)
      && (d == 0 || IsDigitPart(m[..d]))
      && (d + 1 == |m| || IsDigitPart(m[d + 1..]))
  }

  /** `["+" | "-"] digitpart`, what follows the `e` of an exponent. */
  predicate IsExponentDigits(x: string)
  {
    |x| > 0 && IsDigitPart(if IsSign(x[0]) then x[1..] else x)
  }

  function LowerAscii(t: string): (r: string)
    ensures |r| == |t|
  {
    seq(|t|, i requires 0 <= i < |t| => if 'A' <= t[i] <= 'Z' then (t[i] as int + 32) as char else t[i])
  }

  /** Whether `float(v)` accepts `v`: surrounding whitespace, an optional sign, then a decimal
      number with an optional exponent, or `inf`, `infinity` or `nan` in any letter case. */
  predicate IsFloatLiteral(v: string)
    ensures IsFloatLiteral(v) ==> Strip(v) != ""
  {
    var t := Strip(v);
    var u := if |t| > 0 && IsSign(t[0]) then t[1..] else t;
    var x := IndexOfAny(u, {'e', 'E'});
    || (IsMantissa(u[..x]) && (x == |u| || IsExponentDigits(u[x + 1..])))
    || LowerAscii(u) in {"inf", "infinity", "nan"}
  }

  /** The value `int(v)` or `float(v)` would reject for this key. */
  predicate Rejected(key: string, v: string)
  {
    (key in IntKeys && ParseInt(v).None?) || (key in FloatKeys && !IsFloatLiteral(v))
  }

  /** One step of the second loop of `parse`. */
  function CoerceValue(key: string, v: string): Option<Value>
  {
    if key in IntKeys then
      match ParseInt(v)
      case Some(n) => Some(Int(n))
      case None => None
    else if key in FloatKeys then
      if IsFloatLiteral(v) then Some(Float(Strip(v))) else None
    else Some(Text(v))
  }

  /** The treatment one key gets, by the set it belongs to. */
  predicate Treated(key: string, v: string, typed: Value)
  {
    && (key in IntKeys ==> ParseInt(v).Some? && typed == Int(ParseInt(v).value))
    && (key in FloatKeys ==> IsFloatLiteral(v) && typed == Float(Strip(v)))
    && (key !in IntKeys && key !in FloatKeys ==> typed == Text(v))
  }

  lemma CoerceValueTreats(key: string, v: string)
    ensures CoerceValue(key, v).None? <==> Rejected(key, v)
    ensures CoerceValue(key, v).Some? ==> Treated(key, v, CoerceValue(key, v).value)
  {
    KeySetsDisjoint();
  }

  /** The second pass of `parse` on the collected annotations: it fails exactly when some
      integer or float key holds a value its conversion rejects; otherwise the key set is
      unchanged, integer keys hold the integer their text spells, float keys their accepted
      literal, and every other key keeps its text. */
  function Coerce(raw: map<string, string>): (typed: Option<map<string, Value>>)
    ensures typed.None? <==> exists k :: k in raw && Rejected(k, raw[k])
    ensures typed.Some? ==> typed.value.Keys == raw.Keys
    ensures typed.Some? ==> forall k :: k in raw ==> Treated(k, raw[k], typed.value[k])
  {
    forall k | k in raw {
      CoerceValueTreats(k, raw[k]);
    }
    if forall k | k in raw :: CoerceValue(k, raw[k]).Some? then
      Some(map k | k in raw :: CoerceValue(k, raw[k]).value)
    else None
  }

  /** A key whose value is rejected makes the whole pass fail. */
  lemma CoerceRejects(raw: map<string, string>, k: string)
    requires k in raw && CoerceValue(k, raw[k]).None?
    ensures Coerce(raw) == None
  {
  }

  /** Converting every value succeeds and gives exactly the converted map. */
  lemma CoerceAccepts(raw: map<string, string>, typed: map<string, Value>)
    requires typed.Keys == raw.Keys
    requires forall k :: k in raw ==> CoerceValue(k, raw[k]) == Some(typed[k])
    ensures Coerce(raw) == Some(typed)
  {
    assert forall k | k in raw :: CoerceValue(k, raw[k]).Some?;
    var m := map k | k in raw :: CoerceValue(k, raw[k]).value;
    assert Coerce(raw) == Some(m);
    assert m.Keys == typed.Keys;
    assert forall k | k in m :: m[k] == typed[k];
    assert m == typed;
  }

  /** Decimal text of a natural number, most significant digit first. */
  function ShowNat(n: nat): (t: string)
    ensures |t| > 0 && forall i :: 0 <= i < |t| ==> IsDigit(t[i])
  {
    var digit := ('0' as int + n % 10) as char;
    if n < 10 then [digit] else ShowNat(n / 10) + [digit]
  }

  /** `str(n)` for an integer. */
  function Show(n: int): string
  {
    if n < 0 then "-" + ShowNat(-n) else ShowNat(n)
  }

  lemma {:induction false} DigitsValueShowNat(n: nat)
    ensures DigitsValue(ShowNat(n)) == n
  {
    var digit := ('0' as int + n % 10) as char;
    if n >= 10 {
      DigitsValueShowNat(n / 10);
      var t := ShowNat(n / 10) + [digit];
      assert t[..|t| - 1] == ShowNat(n / 10);
    }
  }

  lemma StripUnchanged(t: string)
    requires forall i :: 0 <= i < |t| ==> !IsSpace(t[i])
    ensures Strip(t) == t
  {
  }

  /** The integer conversion reads back what `str` writes: the coerced value of an integer
      key is the number its text spells, for every integer. */
  lemma ParseIntShow(n: int)
    ensures ParseInt(Show(n)) == Some(n)
  {
    var t := Show(n);
    var digits := ShowNat(if n < 0 then -n else n);
    assert forall i :: 0 <= i < |t| ==> IsDigit(t[i]) || t[i] == '-';
    StripUnchanged(t);
    DigitsValueShowNat(if n < 0 then -n else n);
    if n < 0 {
      assert t[1..] == digits;
    }
  }
}
