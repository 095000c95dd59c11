/** The part of `json.dumps(obj, separators=(',', ':'), sort_keys=True)` the output record
    depends on: which members an object has, the order they are written in, and the compact
    separators between them. How a string is escaped and how a float is spelled are library
    behaviour; they are given as functions. */
module Json {
  import opened Coercion

  datatype Json =
    | JStr(s: string)
    | JInt(n: int)
    | JFloat(literal: string)
    | JObj(members: seq<(string, Json)>)

  /** Python's `<` on str: compare code point by code point; a proper prefix comes first. */
  predicate StrLt(a: string, b: string)
    decreases |a|
  {
    |b| > 0 && (|a| == 0 || a[0] < b[0] || (a[0] == b[0] && StrLt(a[1..], b[1..])))
  }

  lemma {:induction false} StrLtIrreflexive(a: string)
    ensures !StrLt(a, a)
    decreases |a|
  {
    if |a| > 0 {
      StrLtIrreflexive(a[1..]);
    }
  }

  lemma {:induction false} StrLtAsymmetric(a: string, b: string)
    ensures StrLt(a, b) ==> !StrLt(b, a)
    decreases |a|
  {
    if |a| > 0 && |b| > 0 {
      StrLtAsymmetric(a[1..], b[1..]);
    }
  }

  lemma {:induction false} StrLtTransitive(a: string, b: string, c: string)
    requires StrLt(a, b) && StrLt(b, c)
    ensures StrLt(a, c)
    decreases |a|
  {
    if |a| > 0 && a[0] == b[0] && b[0] == c[0] {
      StrLtTransitive(a[1..], b[1..], c[1..]);
    }
  }

  /** Any two distinct strings are ordered one way or the other. */
  lemma {:induction false} StrLtTotal(a: string, b: string)
    ensures a == b || StrLt(a, b) || StrLt(b, a)
    decreases |a|
  {
    if |a| > 0 && |b| > 0 && a[0] == b[0] {
      StrLtTotal(a[1..], b[1..]);
      if a[1..] == b[1..] {
        assert a == [a[0]] + a[1..] && b == [b[0]] + b[1..];
      }
    }
  }

  /** `k` is the first of `keys` in sorted order. */
  predicate IsLeast(k: string, keys: set<string>)
  {
    k in keys && forall j :: j in keys && j != k ==> StrLt(k, j)
  }

  lemma {:induction false} LeastExists(keys: set<string>)
    requires keys != {}
    ensures exists k :: IsLeast(k, keys)
    decreases |keys|
  {
    var x :| x in keys;
    if keys == {x} {
      assert IsLeast(x, keys);
    } else {
      var rest := keys - {x};
      assert |rest| < |keys|;
      LeastExists(rest);
      var y :| IsLeast(y, rest);
      StrLtTotal(x, y);
      if StrLt(x, y) {
        forall j | j in keys && j != x ensures StrLt(x, j) {
          if j != y {
            assert j in rest;
            StrLtTransitive(x, y, j);
          }
        }
        assert IsLeast(x, keys);
      } else {
        assert y != x && StrLt(y, x);
        forall j | j in keys && j != y ensures StrLt(y, j) {
          if j != x {
            assert j in rest;
          }
        }
        assert IsLeast(y, keys);
      }
    }
  }

  lemma LeastUnique(keys: set<string>)
    ensures forall a, b :: IsLeast(a, keys) && IsLeast(b, keys) ==> a == b
  {
    forall a, b | IsLeast(a, keys) && IsLeast(b, keys) ensures a == b {
      if a != b {
        StrLtAsymmetric(a, b);
      }
    }
  }

  predicate StrictlySorted(ks: seq<string>)
  {
    forall i, j :: 0 <= i < j < |ks| ==> StrLt(ks[i], ks[j])
  }

  /** The keys of a dictionary in the order `sort_keys=True` writes them: each key once, in
      increasing order. */
  function SortedKeys(keys: set<string>): (ks: seq<string>)
    ensures |ks| == |keys|
    ensures forall k :: k in ks <==> k in keys
    ensures StrictlySorted(ks)
    decreases |keys|
  {
    if keys == {} then []
    else
      LeastExists(keys);
      LeastUnique(keys);
      var k :| IsLeast(k, keys);
      [k] + SortedKeys(keys - {k})
  }

  /** A strictly increasing sequence is fixed by its elements: there is one way to write a
      set of keys in sorted order. */
  lemma {:induction false} SortedUnique(a: seq<string>, b: seq<string>)
    requires StrictlySorted(a) && StrictlySorted(b)
    requires forall k :: k in a <==> k in b
    ensures a == b
    decreases |a|
  {
    assert |a| == 0 <==> |b| == 0 by {
      if |a| > 0 { assert a[0] in a; }
      if |b| > 0 { assert b[0] in b; }
    }
    if |a| > 0 {
      if a[0] != b[0] {
        assert a[0] in b && b[0] in a;
        var i :| 0 <= i < |a| && a[i] == b[0];
        var j :| 0 <= j < |b| && b[j] == a[0];
        assert StrLt(a[0], b[0]) && StrLt(b[0], a[0]);
        StrLtAsymmetric(a[0], b[0]);
      }
      forall k ensures k in a[1..] <==> k in b[1..] {
        if k in a[1..] {
          var i :| 1 <= i < |a| && a[i] == k;
          StrLtIrreflexive(k);
          assert a[i] in a;
          var j :| 0 <= j < |b| && b[j] == k;
          assert j != 0;
          assert b[1..][j - 1] == k;
        }
        if k in b[1..] {
          var j :| 1 <= j < |b| && b[j] == k;
          StrLtIrreflexive(k);
          assert b[j] in b;
          var i :| 0 <= i < |a| && a[i] == k;
          assert i != 0;
          assert a[1..][i - 1] == k;
        }
      }
      SortedUnique(a[1..], b[1..]);
      assert a == [a[0]] + a[1..] && b == [b[0]] + b[1..];
    }
  }

  /** The members a dictionary gives when its keys are taken in the order `ks`. */
  function MembersInOrder(fields: map<string, Json>, ks: seq<string>): seq<(string, Json)>
    requires forall k :: k in ks ==> k in fields
  {
    seq(|ks|, i requires 0 <= i < |ks| => (ks[i], fields[ks[i]]))
  }

  lemma MembersInOrderFacts(fields: map<string, Json>, ks: seq<string>)
    requires |ks| == |fields| && StrictlySorted(ks)
    requires forall k :: k in ks <==> k in fields
    ensures var ms := MembersInOrder(fields, ks);
            && |ms| == |fields|
            && (forall i :: 0 <= i < |ms| ==> ms[i].0 in fields && ms[i].1 == fields[ms[i].0])
            && (forall k :: k in fields <==> exists i :: 0 <= i < |ms| && ms[i].0 == k)
            && (forall i, i' :: 0 <= i < i' < |ms| ==> StrLt(ms[i].0, ms[i'].0))
  {
    var ms := MembersInOrder(fields, ks);
    forall k | k in fields ensures exists i :: 0 <= i < |ms| && ms[i].0 == k {
      var i :| 0 <= i < |ks| && ks[i] == k;
      assert ms[i].0 == k;
    }
    forall k | exists i :: 0 <= i < |ms| && ms[i].0 == k ensures k in fields {
      var i :| 0 <= i < |ms| && ms[i].0 == k;
      assert ks[i] == k && ks[i] in ks;
    }
  }

  /** A Python dict as `json.dumps(..., sort_keys=True)` writes it: its members in sorted key
      order. */
  function Object(fields: map<string, Json>): (j: Json)
    ensures j.JObj? && |j.members| == |fields|
    ensures forall i :: 0 <= i < |j.members| ==>
              j.members[i].0 in fields && j.members[i].1 == fields[j.members[i].0]
    ensures forall k :: k in fields <==> exists i :: 0 <= i < |j.members| && j.members[i].0 == k
    ensures forall i, i' :: 0 <= i < i' < |j.members| ==> StrLt(j.members[i].0, j.members[i'].0)
  {
    var ks := SortedKeys(fields.Keys);
    assert |fields.Keys| == |fields|;
    MembersInOrderFacts(fields, ks);
    JObj(MembersInOrder(fields, ks))
  }

  /** Listing a dictionary's keys in increasing order gives exactly the members `Object`
      writes, in the same order. */
  lemma ObjectMembers(fields: map<string, Json>, ks: seq<string>)
    requires StrictlySorted(ks)
    requires forall k :: k in ks <==> k in fields
    ensures Object(fields) == JObj(MembersInOrder(fields, ks))
  {
    SortedUnique(SortedKeys(fields.Keys), ks);
  }

  /** An object with five members, given its keys in increasing order. */
  lemma ObjectOfFive(fields: map<string, Json>, ks: seq<string>)
    requires |ks| == 5 && StrictlySorted(ks)
    requires forall k :: k in ks <==> k in fields
    ensures ks[0] in fields && ks[1] in fields && ks[2] in fields && ks[3] in fields && ks[4] in fields
    ensures Object(fields) == JObj([(ks[0], fields[ks[0]]), (ks[1], fields[ks[1]]), (ks[2], fields[ks[2]]),
                                    (ks[3], fields[ks[3]]), (ks[4], fields[ks[4]])])
  {
    ObjectMembers(fields, ks);
    MembersOfFive(fields, ks);
  }

  lemma MembersOfFive(fields: map<string, Json>, ks: seq<string>)
    requires |ks| == 5 && forall k :: k in ks ==> k in fields
    ensures MembersInOrder(fields, ks)
            == [(ks[0], fields[ks[0]]), (ks[1], fields[ks[1]]), (ks[2], fields[ks[2]]),
                (ks[3], fields[ks[3]]), (ks[4], fields[ks[4]])]
  {
  }

  /** A typed annotation value as JSON: an int, a float, or a string. */
  function ValueJson(v: Value): Json
  {
    match v
    case Int(n) => JInt(n)
    case Float(literal) => JFloat(literal)
    case Text(t) => JStr(t)
  }

  /** The library behaviour the rendering leaves open: the body of a string literal (escapes
      and `ensure_ascii`) and the text `repr` gives a float. */
  datatype JsonLib = JsonLib(escape: string -> string, floatRepr: string -> string)

  function Quote(s: string, lib: JsonLib): string
  {
    "\"" + lib.escape(s) + "\""
  }

  /** Printable ASCII other than `"` and `\`: what `json.dumps` writes as it is. */
  predicate IsPlainChar(c: char)
  {
    ' ' <= c <= '~' && c != '"' && c != '\\'
  }

  /** The escaping `json.dumps` does: a string made only of plain characters is left as it is. */
  ghost predicate KeepsPlainText(lib: JsonLib)
  {
    forall s :: (forall i :: 0 <= i < |s| ==> IsPlainChar(s[i])) ==> lib.escape(s) == s
  }

  /** A plain string is written between double quotes, unchanged. */
  lemma QuotePlain(s: string, lib: JsonLib)
    requires KeepsPlainText(lib)
    requires forall i :: 0 <= i < |s| ==> IsPlainChar(s[i])
    ensures Quote(s, lib) == "\"" + s + "\""
  {
  }

  function Concat(parts: seq<string>): string
  {
    if |parts| == 0 then "" else parts[0] + Concat(parts[1..])
  }

  /** The text of an object with five members, written out. */
  lemma RenderFiveMembers(ms: seq<(string, Json)>, lib: JsonLib)
    requires |ms| == 5
    ensures Render(JObj(ms), lib) ==
              "{" + Concat([Quote(ms[0].0, lib) + ":" + Render(ms[0].1, lib),
                            "," + Quote(ms[1].0, lib) + ":" + Render(ms[1].1, lib),
                            "," + Quote(ms[2].0, lib) + ":" + Render(ms[2].1, lib),
                            "," + Quote(ms[3].0, lib) + ":" + Render(ms[3].1, lib),
                            "," + Quote(ms[4].0, lib) + ":" + Render(ms[4].1, lib)]) + "}"
  {
    var parts := seq(|ms|, i requires 0 <= i < |ms| =>
                   (if i == 0 then "" else ",") + Quote(ms[i].0, lib) + ":" + Render(ms[i].1, lib));
    assert parts[0] == Quote(ms[0].0, lib) + ":" + Render(ms[0].1, lib) by {
      assert "" + Quote(ms[0].0, lib) == Quote(ms[0].0, lib);
    }
    assert Render(JObj(ms), lib) == "{" + Concat(parts) + "}";
    assert parts == [parts[0], parts[1], parts[2], parts[3], parts[4]];
  }

  lemma ConcatFive(a: string, b: string, c: string, d: string, e: string)
    ensures Concat([a, b, c, d, e]) == a + b + c + d + e
  {
    assert Concat([e]) == e + Concat([]);
    assert Concat([d, e]) == d + e by { assert [d, e][1..] == [e]; }
    assert Concat([c, d, e]) == c + d + e by { assert [c, d, e][1..] == [d, e]; }
    assert Concat([b, c, d, e]) == b + c + d + e by { assert [b, c, d, e][1..] == [c, d, e]; }
    assert [a, b, c, d, e][1..] == [b, c, d, e];
  }

  /** The compact text: `,` between members and `:` between key and value, no spaces. */
  function Render(j: Json, lib: JsonLib): (r: string)
    ensures j.JStr? ==> |r| >= 2 && r[0] == '"' && r[|r| - 1] == '"'
    ensures j.JObj? ==> |r| >= 2 && r[0] == '{' && r[|r| - 1] == '}'
    ensures j.JObj? && j.members == [] ==> r == "{}"
    decreases j
  {
    match j
    case JStr(s) => Quote(s, lib)
    case JInt(n) => Show(n)
    case JFloat(literal) => lib.floatRepr(literal)
    case JObj(ms) =>
      "{" + Concat(seq(|ms|, i requires 0 <= i < |ms| =>
                         (if i == 0 then "" else ",") + Quote(ms[i].0, lib) + ":" + Render(ms[i].1, lib)))
      + "}"
  }
}
