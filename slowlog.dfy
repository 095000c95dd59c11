/** `parse`: one slow-query log message becomes its SQL text and its typed annotations.
    The functions give the meaning of each part; `Parse` is the two-loop procedure itself,
    proved to compute `ParseSpec`. */
module SlowLog {
  import opened Wrappers
  import opened Text
  import opened Annotations
  import opened Coercion

  /** How the first loop of `parse` treats a line. */
  datatype LineKind = Annotation | Skipped | Statement

  /** The tests in the order the loop makes them: `# ` first, then `SET timestamp=`, then
      `use `; all three are case-sensitive prefix tests. */
  function Classify(line: string): (r: LineKind)
    ensures r == Annotation <==> StartsWith(line, "# ")
    ensures r == Skipped ==> StartsWith(line, "SET timestamp=") || StartsWith(line, "use ")
    ensures r == Statement ==>
              !StartsWith(line, "# ") && !StartsWith(line, "SET timestamp=") && !StartsWith(line, "use ")
  {
    if StartsWith(line, "# ") then Annotation
    else if StartsWith(line, "SET timestamp=") then Skipped
    else if StartsWith(line, "use ") then Skipped
    else Statement
  }

  /** The lines the first loop appends to `sqllines`, in order. */
  function SqlLines(lines: seq<string>): seq<string>
  {
    if |lines| == 0 then []
    else
      var last := lines[|lines| - 1];
      SqlLines(lines[..|lines| - 1]) + (if Classify(last) == Statement then [last] else [])
  }

  /** `props.update(d)`, pair by pair: each pair overwrites the key it names. */
  function Update(m: map<string, string>, pairs: seq<(string, string)>): map<string, string>
  {
    if |pairs| == 0 then m
    else
      var last := pairs[|pairs| - 1];
      Update(m, pairs[..|pairs| - 1])[last.0 := last.1]
  }

  /** `dict(pairs)`. */
  function DictOf(pairs: seq<(string, string)>): map<string, string>
  {
    Update(map[], pairs)
  }

  /** The pairs an annotation line contributes: those found after its `# ` prefix. */
  function LinePairs(line: string): seq<(string, string)>
  {
    if Classify(line) == Annotation then Pairs(line[2..]) else []
  }

  /** The dictionary the first loop builds, before any value is converted. */
  function RawProps(lines: seq<string>): map<string, string>
  {
    if |lines| == 0 then map[]
    else
      var last := lines[|lines| - 1];
      RawProps(lines[..|lines| - 1]) + DictOf(LinePairs(last))
  }

  /** Every pair of every annotation line, in message order. */
  function AllPairs(lines: seq<string>): seq<(string, string)>
  {
    if |lines| == 0 then []
    else AllPairs(lines[..|lines| - 1]) + LinePairs(lines[|lines| - 1])
  }

  /** The annotations of a message as text, before any value is converted. */
  function RawAnnotations(message: string): map<string, string>
  {
    RawProps(Split(message, '\n'))
  }

  /** The result of `parse`: the SQL text and the typed annotations. */
  datatype Parsed = Parsed(sql: string, props: map<string, Value>)

  /** What `parse(message)` returns, or the error it raises: it fails exactly when an integer
      or float annotation holds a value its conversion rejects; otherwise every annotation is
      kept, with its key's treatment. */
  function ParseSpec(message: string): (r: Result<Parsed, Error>)
    ensures r.Failure? <==> exists k :: k in RawAnnotations(message) && Rejected(k, RawAnnotations(message)[k])
    ensures r.Failure? ==> r.error == CoercionError
    ensures r.Success? ==> r.value.props.Keys == RawAnnotations(message).Keys
    ensures r.Success? ==> forall k :: k in RawAnnotations(message) ==>
              Treated(k, RawAnnotations(message)[k], r.value.props[k])
  {
    var lines := Split(message, '\n');
    var typed := Coerce(RawAnnotations(message));
    if typed.None? then Failure(CoercionError)
    else Success(Parsed(Join(SqlLines(lines), '\n'), typed.value))
  }

  /** Every value held as text, as the first loop leaves the dictionary. */
  function AsText(m: map<string, string>): map<string, Value>
  {
    map k | k in m :: Text(m[k])
  }

  lemma AsTextUnion(a: map<string, string>, b: map<string, string>)
    ensures AsText(a + b) == AsText(a) + AsText(b)
  {
  }

  /** One more line extends the kept lines and the dictionary as the loop body does, by the
      test the line passes first. */
  lemma ScanStep(lines: seq<string>, i: nat)
    requires i < |lines|
    ensures var line := lines[i];
            StartsWith(line, "# ") ==>
              && SqlLines(lines[..i + 1]) == SqlLines(lines[..i])
              && AsText(RawProps(lines[..i + 1])) == AsText(RawProps(lines[..i])) + AsText(DictOf(Pairs(line[2..])))
    ensures var line := lines[i];
            !StartsWith(line, "# ") ==>
              && AsText(RawProps(lines[..i + 1])) == AsText(RawProps(lines[..i]))
              && SqlLines(lines[..i + 1]) == SqlLines(lines[..i])
                   + (if StartsWith(line, "SET timestamp=") || StartsWith(line, "use ") then [] else [line])
  {
    var line := lines[i];
    var prefix := lines[..i + 1];
    assert prefix[..i] == lines[..i] && prefix[i] == line;
    assert SqlLines(prefix) == SqlLines(lines[..i]) + (if Classify(line) == Statement then [line] else []);
    assert RawProps(prefix) == RawProps(lines[..i]) + DictOf(LinePairs(line));
    AsTextUnion(RawProps(lines[..i]), DictOf(LinePairs(line)));
    if !StartsWith(line, "# ") {
      assert DictOf(LinePairs(line)) == map[];
      assert RawProps(lines[..i]) + map[] == RawProps(lines[..i]);
    }
  }

  /** The first loop of `parse`: lines starting `# ` feed `props` through
      `props.update(dict(commentRe.findall(line[2:])))`, `SET timestamp=` and `use ` lines are
      dropped, every other line is appended to `sqllines`. */
  method ScanLines(lines: seq<string>) returns (sqlLines: seq<string>, props: map<string, Value>)
    ensures sqlLines == SqlLines(lines)
    ensures props == AsText(RawProps(lines))
  {
    props := map[];
    sqlLines := [];
    for i := 0 to |lines|
      invariant sqlLines == SqlLines(lines[..i])
      invariant props == AsText(RawProps(lines[..i]))
    {
      ScanStep(lines, i);
      var line := lines[i];
      if StartsWith(line, "# ") {
        props := props + AsText(DictOf(Pairs(line[2..])));
        continue;
      }
      if StartsWith(line, "SET timestamp=") {
        continue;
      }
      if StartsWith(line, "use ") {
        continue;
      }
      sqlLines := sqlLines + [line];
    }
    assert lines[..|lines|] == lines;
  }

  /** The second loop of `parse`: each integer or float key has its value replaced, in place,
      by the converted value; the first value a conversion rejects aborts `parse`. */
  method ConvertValues(props: map<string, Value>, ghost raw: map<string, string>)
    returns (typed: Option<map<string, Value>>)
    requires props == AsText(raw)
    ensures typed == Coerce(raw)
  {
    var current := props;
    var pending := current.Keys;
    while pending != {}
      invariant pending <= raw.Keys && current.Keys == raw.Keys
      invariant forall k :: k in pending ==> current[k] == Text(raw[k])
      invariant forall k :: k in raw && k !in pending ==> CoerceValue(k, raw[k]) == Some(current[k])
      decreases pending
    {
      var k :| k in pending;
      var v := current[k].text;
      assert v == raw[k];
      if k in IntKeys {
        var n := ParseInt(v);
        if n.None? {
          CoerceRejects(raw, k);
          return None;
        }
        current := current[k := Int(n.value)];
      } else if k in FloatKeys {
        if !IsFloatLiteral(v) {
          CoerceRejects(raw, k);
          return None;
        }
        current := current[k := Float(Strip(v))];
      }
      assert CoerceValue(k, raw[k]) == Some(current[k]);
      pending := pending - {k};
    }
    CoerceAccepts(raw, current);
    typed := Some(current);
  }

  /** `parse` as the source writes it: split on newlines, the loop over the lines, the loop
      over the keys, and the join of the kept lines. */
  method Parse(message: string) returns (r: Result<Parsed, Error>)
    ensures r == ParseSpec(message)
  {
    var lines := Split(message, '\n');
    var sqlLines, props := ScanLines(lines);
    var typed := ConvertValues(props, RawProps(lines));
    if typed.None? {
      return Failure(CoercionError);
    }
    r := Success(Parsed(Join(sqlLines, '\n'), typed.value));
  }

  // ---------------------------------------------------------------------------------------
  // The line filter

  /** The `# ` test comes first: a line starting `# ` is an annotation whatever follows,
      even `SET timestamp=` or `use `; a line starting `SET timestamp=` or `use ` is skipped. */
  lemma AnnotationTestComesFirst(rest: string)
    ensures Classify("# " + rest) == Annotation
    ensures Classify("SET timestamp=" + rest) == Skipped
    ensures Classify("use " + rest) == Skipped
  {
    assert ("# " + rest)[..2] == "# ";
    assert Classify("SET timestamp=" + rest) == Skipped by {
      DiffersFrom("SET timestamp=" + rest, "# ", 0);
      assert ("SET timestamp=" + rest)[..14] == "SET timestamp=";
    }
    assert Classify("use " + rest) == Skipped by {
      DiffersFrom("use " + rest, "# ", 0);
      DiffersFrom("use " + rest, "SET timestamp=", 0);
      assert ("use " + rest)[..4] == "use ";
    }
  }

  /** A line that differs from a prefix at some position does not start with it. */
  lemma DiffersFrom(line: string, prefix: string, i: nat)
    requires i < |line| && i < |prefix| && line[i] != prefix[i]
    ensures !StartsWith(line, prefix)
  {
  }

  /** The prefix tests are case-sensitive and anchored at the very start of the line: `USE `,
      `set timestamp=`, a leading space, and `#` not followed by a space all leave the line
      as SQL, whatever follows. */
  lemma PrefixTestsAreExact(rest: string)
    ensures Classify("USE " + rest) == Statement
    ensures Classify("set timestamp=" + rest) == Statement
    ensures Classify(" " + rest) == Statement
    ensures (rest == [] || rest[0] != ' ') ==> Classify("#" + rest) == Statement
  {
    var upper := "USE " + rest;
    assert Classify(upper) == Statement by {
      DiffersFrom(upper, "# ", 0);
      DiffersFrom(upper, "SET timestamp=", 1);
      DiffersFrom(upper, "use ", 0);
    }
    var lower := "set timestamp=" + rest;
    assert Classify(lower) == Statement by {
      DiffersFrom(lower, "# ", 0);
      DiffersFrom(lower, "SET timestamp=", 0);
      DiffersFrom(lower, "use ", 0);
    }
    var indented := " " + rest;
    assert Classify(indented) == Statement by {
      DiffersFrom(indented, "# ", 0);
      DiffersFrom(indented, "SET timestamp=", 0);
      DiffersFrom(indented, "use ", 0);
    }
    if rest == [] || rest[0] != ' ' {
      var hash := "#" + rest;
      assert !StartsWith(hash, "# ") by {
        if |rest| > 0 {
          DiffersFrom(hash, "# ", 1);
        }
      }
      DiffersFrom(hash, "SET timestamp=", 0);
      DiffersFrom(hash, "use ", 0);
    }
  }

  /** Filtering a concatenation filters each part: kept lines keep their relative order. */
  lemma {:induction false} SqlLinesAppend(a: seq<string>, b: seq<string>)
    ensures SqlLines(a + b) == SqlLines(a) + SqlLines(b)
    decreases |b|
  {
    if |b| > 0 {
      var pre := b[..|b| - 1];
      SqlLinesAppend(a, pre);
      assert (a + b)[..|a + b| - 1] == a + pre;
      assert (a + b)[|a + b| - 1] == b[|b| - 1];
    } else {
      assert a + b == a;
    }
  }

  /** A line is kept exactly when it occurs in the message and is neither an annotation nor a
      `SET timestamp=`/`use ` line. */
  lemma {:induction false} SqlLinesMember(lines: seq<string>, x: string)
    ensures x in SqlLines(lines) <==> x in lines && Classify(x) == Statement
  {
    if |lines| > 0 {
      var pre := lines[..|lines| - 1];
      SqlLinesMember(pre, x);
      assert lines == pre + [lines[|lines| - 1]];
    }
  }

  /** When no line is dropped, the kept lines are all the lines. */
  lemma {:induction false} SqlLinesAllKept(lines: seq<string>)
    requires forall i :: 0 <= i < |lines| ==> Classify(lines[i]) == Statement
    ensures SqlLines(lines) == lines
  {
    if |lines| > 0 {
      SqlLinesAllKept(lines[..|lines| - 1]);
    }
  }

  // ---------------------------------------------------------------------------------------
  // The annotation dictionary

  /** `props.update` pair by pair: a key is present when the old dictionary or some pair has
      it, the last pair naming a key decides its value, and a key no pair names keeps its old
      value. */
  lemma {:induction false} UpdateLastWins(m: map<string, string>, pairs: seq<(string, string)>, k: string)
    ensures k in Update(m, pairs) <==> k in m || exists i :: 0 <= i < |pairs| && pairs[i].0 == k
    ensures forall i :: 0 <= i < |pairs| && pairs[i].0 == k &&
                        (forall j :: i < j < |pairs| ==> pairs[j].0 != k) ==>
                          Update(m, pairs)[k] == pairs[i].1
    ensures (forall i :: 0 <= i < |pairs| ==> pairs[i].0 != k) && k in m ==>
              Update(m, pairs)[k] == m[k]
  {
    if |pairs| > 0 {
      var pre := pairs[..|pairs| - 1];
      UpdateLastWins(m, pre, k);
      assert forall i :: 0 <= i < |pre| ==> pre[i] == pairs[i];
    }
  }

  lemma {:induction false} UpdateAppend(m: map<string, string>, a: seq<(string, string)>, b: seq<(string, string)>)
    ensures Update(m, a + b) == Update(Update(m, a), b)
    decreases |b|
  {
    if |b| > 0 {
      var pre := b[..|b| - 1];
      UpdateAppend(m, a, pre);
      assert (a + b)[..|a + b| - 1] == a + pre;
      assert (a + b)[|a + b| - 1] == b[|b| - 1];
    } else {
      assert a + b == a;
    }
  }

  /** `props.update(dict(pairs))` is the same as applying the pairs one by one. */
  lemma {:induction false} UpdateWithDict(m: map<string, string>, pairs: seq<(string, string)>)
    ensures m + DictOf(pairs) == Update(m, pairs)
    decreases |pairs|
  {
    if |pairs| > 0 {
      UpdateWithDict(m, pairs[..|pairs| - 1]);
    }
  }

  /** The per-line `update(dict(...))` steps build the same dictionary as one pass over all
      the pairs of the message, in order. */
  lemma {:induction false} RawPropsIsAllPairs(lines: seq<string>)
    ensures RawProps(lines) == DictOf(AllPairs(lines))
  {
    if |lines| > 0 {
      var pre := lines[..|lines| - 1];
      var last := LinePairs(lines[|lines| - 1]);
      RawPropsIsAllPairs(pre);
      UpdateWithDict(DictOf(AllPairs(pre)), last);
      UpdateAppend(map[], AllPairs(pre), last);
    }
  }

  /** Duplicate annotation keys, within one line or across lines: a key is present exactly
      when some annotation pair names it, and its value is the one from the last such pair. */
  lemma AnnotationLastWins(lines: seq<string>, k: string)
    ensures k in RawProps(lines) <==> exists i :: 0 <= i < |AllPairs(lines)| && AllPairs(lines)[i].0 == k
    ensures forall i :: 0 <= i < |AllPairs(lines)| && AllPairs(lines)[i].0 == k &&
                        (forall j :: i < j < |AllPairs(lines)| ==> AllPairs(lines)[j].0 != k) ==>
                          RawProps(lines)[k] == AllPairs(lines)[i].1
  {
    RawPropsIsAllPairs(lines);
    UpdateLastWins(map[], AllPairs(lines), k);
  }

  lemma {:induction false} AllPairsWellFormed(lines: seq<string>)
    ensures forall i :: 0 <= i < |AllPairs(lines)| ==> WellFormed(AllPairs(lines)[i])
  {
    if |lines| > 0 {
      AllPairsWellFormed(lines[..|lines| - 1]);
    }
  }

  /** A message with no `# ` line has no annotations. */
  lemma {:induction false} NoAnnotationLinesNoProps(lines: seq<string>)
    requires forall i :: 0 <= i < |lines| ==> Classify(lines[i]) != Annotation
    ensures RawProps(lines) == map[]
  {
    if |lines| > 0 {
      NoAnnotationLinesNoProps(lines[..|lines| - 1]);
    }
  }

  // ---------------------------------------------------------------------------------------
  // parse as a whole

  /** A message without `# ` lines parses to an empty annotation map and the message with its
      `SET timestamp=` and `use ` lines removed. */
  lemma ParseWithoutAnnotations(message: string)
    requires forall i :: 0 <= i < |Split(message, '\n')| ==> Classify(Split(message, '\n')[i]) != Annotation
    ensures ParseSpec(message) == Success(Parsed(Join(SqlLines(Split(message, '\n')), '\n'), map[]))
  {
    NoAnnotationLinesNoProps(Split(message, '\n'));
  }

  /** A message in which no line is dropped comes back unchanged as the SQL text. */
  lemma ParsePlainMessage(message: string)
    requires forall i :: 0 <= i < |Split(message, '\n')| ==> Classify(Split(message, '\n')[i]) == Statement
    ensures ParseSpec(message) == Success(Parsed(message, map[]))
  {
    var lines := Split(message, '\n');
    assert RawProps(lines) == map[] by { NoAnnotationLinesNoProps(lines); }
    assert Join(SqlLines(lines), '\n') == message by { SqlLinesAllKept(lines); JoinSplit(message, '\n'); }
    assert Coerce(map[]) == Some(map[]);
  }

  /** The SQL text is exactly the kept lines joined by newlines: splitting it again gives back
      those lines, in order. */
  lemma ParseSqlSplitsBack(message: string)
    requires ParseSpec(message).Success?
    requires SqlLines(Split(message, '\n')) != []
    ensures Split(ParseSpec(message).value.sql, '\n') == SqlLines(Split(message, '\n'))
  {
    var lines := Split(message, '\n');
    var kept := SqlLines(lines);
    forall i | 0 <= i < |kept| ensures '\n' !in kept[i] {
      SqlLinesMember(lines, kept[i]);
    }
    SplitJoin(kept, '\n');
  }

  /** The SQL text is empty exactly when no line is kept or the only kept line is empty; in
      particular a message whose every line is dropped gives `""`. */
  lemma ParseEmptySql(message: string)
    requires ParseSpec(message).Success?
    ensures var kept := SqlLines(Split(message, '\n'));
            ParseSpec(message).value.sql == "" <==> kept == [] || kept == [""]
  {
    JoinEmpty(SqlLines(Split(message, '\n')), '\n');
  }

  /** Every key of the annotation map `parse` returns is non-empty and holds no ':'. */
  lemma ParsedKeysHaveNoColon(message: string)
    ensures ParseSpec(message).Success? ==>
              forall k :: k in ParseSpec(message).value.props ==> |k| > 0 && ':' !in k
  {
    var lines := Split(message, '\n');
    var raw := RawProps(lines);
    assert forall k | k in raw :: |k| > 0 && ':' !in k by {
      var ps := AllPairs(lines);
      AllPairsWellFormed(lines);
      forall k | k in raw ensures |k| > 0 && ':' !in k {
        AnnotationLastWins(lines, k);
        var i :| 0 <= i < |ps| && ps[i].0 == k;
        assert WellFormed(ps[i]);
      }
    }
    if ParseSpec(message).Success? {
      assert Coerce(raw).Some?;
      assert ParseSpec(message).value.props.Keys == raw.Keys;
    }
  }
}
