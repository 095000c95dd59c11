/** `LogEvent`: one parsed, fingerprinted slow-query event and the JSON record it becomes.
    The external pieces it uses are passed in as functions: the `pt-fingerprint` process, the
    MD5 digest, and the time library (UTC text and milliseconds of a timestamp). */
module Events {
  import opened Wrappers
  import opened Coercion
  import opened SlowLog
  import opened Json

  /** One entry of the decoded batch: its millisecond timestamp and its raw message. */
  datatype RawLogEvent = RawLogEvent(timestamp: int, message: string)

  /** What running `pt-fingerprint -` gives back: exit status and the two output streams. */
  datatype ProcessResult = ProcessResult(returnCode: int, stdout: string, stderr: string)

  type Byte = b: int | 0 <= b < 256

  /** An MD5 digest: sixteen bytes. */
  type Digest = d: seq<Byte> | |d| == 16 witness seq(16, _ => 0)

  /** The collaborators `LogEvent.from_event` calls and this model does not describe. */
  datatype Services = Services(
    runFingerprint: string -> ProcessResult,  // `pt-fingerprint -` with the SQL on its input
    md5: string -> Digest,                    // `hashlib.md5(text.encode()).digest()`
    formatUtc: int -> string,                 // `_t`: the UTC time of a millisecond timestamp
    epochMs: int -> int)                      // `epoch_ms()` of the time made from a timestamp

  /** The assembled record. `timestamp` is the envelope's millisecond timestamp; `stamp` is its
      `%Y-%m-%dT%H:%M:%S.%fZ` text. */
  datatype LogEvent = LogEvent(
    timestamp: int,
    stamp: string,
    sql: string,
    props: map<string, Value>,
    fp: string,
    fpMd5: string)

  /** `fingerprint(sql)`: the normalizer's output when it exits with status 0, otherwise a
      `FingerprintError` carrying what it wrote on its error stream. */
  function Fingerprint(sql: string, run: string -> ProcessResult): (r: Result<string, Error>)
    ensures r.Success? <==> run(sql).returnCode == 0
    ensures r.Success? ==> r.value == run(sql).stdout
    ensures r.Failure? ==> r.error == FingerprintError(run(sql).stderr)
  {
    var res := run(sql);
    if res.returnCode != 0 then Failure(FingerprintError(res.stderr)) else Success(res.stdout)
  }

  predicate IsLowerHex(c: char)
  {
    ('0' <= c <= '9') || ('a' <= c <= 'f')
  }

  function HexDigit(n: nat): (c: char)
    requires n < 16
    ensures IsLowerHex(c)
  {
    if n < 10 then ('0' as int + n) as char else ('a' as int + n - 10) as char
  }

  function HexValue(c: char): Option<nat>
  {
    if '0' <= c <= '9' then Some(c as int - '0' as int)
    else if 'a' <= c <= 'f' then Some(c as int - 'a' as int + 10)
    else None
  }

  /** `hexdigest()`: two lowercase hex digits per byte, high nibble first. */
  function Hex(bytes: seq<Byte>): (h: string)
    ensures |h| == 2 * |bytes|
    ensures forall i :: 0 <= i < |h| ==> IsLowerHex(h[i])
  {
    if |bytes| == 0 then []
    else [HexDigit(bytes[0] / 16), HexDigit(bytes[0] % 16)] + Hex(bytes[1..])
  }

  /** Reads lowercase hex back into bytes. */
  function Unhex(h: string): Option<seq<Byte>>
    decreases |h|
  {
    if |h| == 0 then Some([])
    else if |h| == 1 then None
    else
      match (HexValue(h[0]), HexValue(h[1]), Unhex(h[2..]))
      case (Some(hi), Some(lo), Some(rest)) =>
        if hi < 16 && lo < 16 then Some([hi * 16 + lo] + rest) else None
      case _ => None
  }

  /** Hex encoding loses nothing: the digest can be read back from its hex text. */
  lemma {:induction false} UnhexHex(bytes: seq<Byte>)
    ensures Unhex(Hex(bytes)) == Some(bytes)
  {
    if |bytes| > 0 {
      var h := Hex(bytes);
      UnhexHex(bytes[1..]);
      assert h[2..] == Hex(bytes[1..]);
      assert HexValue(h[0]) == Some(bytes[0] / 16);
      assert HexValue(h[1]) == Some(bytes[0] % 16);
      assert [bytes[0]] + bytes[1..] == bytes;
    }
  }

  /** `fp_md5`: `0x` followed by the 32 lowercase hex digits of the fingerprint's MD5. */
  function FpMd5(fp: string, md5: string -> Digest): (id: string)
    ensures |id| == 34 && id[..2] == "0x"
    ensures forall i :: 2 <= i < |id| ==> IsLowerHex(id[i])
  {
    "0x" + Hex(md5(fp))
  }

  /** The identity is a function of the digest and keeps all of it: two fingerprints get the
      same identity exactly when their digests are equal. */
  lemma FpMd5SameExactlyWhenDigestSame(a: string, b: string, md5: string -> Digest)
    ensures FpMd5(a, md5) == FpMd5(b, md5) <==> md5(a) == md5(b)
  {
    if FpMd5(a, md5) == FpMd5(b, md5) {
      assert FpMd5(a, md5)[2..] == Hex(md5(a));
      assert FpMd5(b, md5)[2..] == Hex(md5(b));
      UnhexHex(md5(a));
      UnhexHex(md5(b));
    }
  }

  /** `LogEvent.from_event`: parse the message, fingerprint the SQL, hash the fingerprint. It
      fails exactly when parsing fails or the normalizer exits non-zero, with the parse error
      first; on success the record carries the envelope timestamp, the parsed SQL and
      annotations, and the fingerprint with its identity. */
  function FromEvent(raw: RawLogEvent, svc: Services): (r: Result<LogEvent, Error>)
    ensures ParseSpec(raw.message).Failure? ==> r == Failure(ParseSpec(raw.message).error)
    ensures ParseSpec(raw.message).Success? ==>
              var p := ParseSpec(raw.message).value;
              var res := svc.runFingerprint(p.sql);
              && (r.Failure? <==> res.returnCode != 0)
              && (r.Failure? ==> r.error == FingerprintError(res.stderr))
              && (r.Success? ==> r.value.sql == p.sql && r.value.props == p.props && r.value.fp == res.stdout)
    ensures r.Success? ==> r.value.timestamp == raw.timestamp && r.value.stamp == svc.formatUtc(raw.timestamp)
    ensures r.Success? ==> r.value.fpMd5 == FpMd5(r.value.fp, svc.md5)
  {
    match ParseSpec(raw.message)
    case Failure(e) => Failure(e)
    case Success(p) =>
      match Fingerprint(p.sql, svc.runFingerprint)
      case Failure(e) => Failure(e)
      case Success(fp) =>
        Success(LogEvent(raw.timestamp, svc.formatUtc(raw.timestamp), p.sql, p.props, fp, FpMd5(fp, svc.md5)))
  }

  /** `epoch_ms()`: the milliseconds of the record's time, as the time library computes them
      from the envelope timestamp. */
  function EpochMs(e: LogEvent, svc: Services): int
  {
    svc.epochMs(e.timestamp)
  }

  /** The annotations as a nested JSON object. */
  function PropsJson(props: map<string, Value>): Json
  {
    Object(map k | k in props :: ValueJson(props[k]))
  }

  /** The dictionary `LogEvent.json` hands to `json.dumps`. `RecordJsonFields` proves that
      `RecordJson` is the object it makes. */
  function RecordFields(e: LogEvent): map<string, Json>
  {
    map[
      "_t" := JStr(e.stamp),
      "sql" := JStr(e.sql),
      "fp" := JStr(e.fp),
      "fp_md5" := JStr(e.fpMd5),
      "props" := PropsJson(e.props)]
  }

  /** The record as a JSON object. The dictionary is written out again rather than taken
      from `RecordFields`: going through that function makes the proofs about publishing
      records much slower. `RecordJsonFields` keeps the two copies in step. */
  function RecordJson(e: LogEvent): Json
  {
    Object(map[
      "_t" := JStr(e.stamp),
      "sql" := JStr(e.sql),
      "fp" := JStr(e.fp),
      "fp_md5" := JStr(e.fpMd5),
      "props" := PropsJson(e.props)])
  }

  const RecordKeys: seq<string> := ["_t", "fp", "fp_md5", "props", "sql"]

  /** The member names in the order `sort_keys=True` puts them. */
  lemma RecordKeysSorted()
    ensures StrictlySorted(RecordKeys)
  {
    assert StrLt("_t", "fp") && StrLt("_t", "fp_md5") && StrLt("_t", "props") && StrLt("_t", "sql");
    assert StrLt("fp", "fp_md5") by {
      assert "fp"[1..] == "p" && "fp_md5"[1..] == "p_md5";
      assert "p"[1..] == [] && "p_md5"[1..] == "_md5";
    }
    assert StrLt("fp", "props") && StrLt("fp", "sql");
    assert StrLt("fp_md5", "props") && StrLt("fp_md5", "sql");
    assert StrLt("props", "sql");
  }

  /** The record has exactly the members `_t`, `fp`, `fp_md5`, `props`, `sql`, written in that
      (sorted) order. */
  lemma RecordLayout(e: LogEvent)
    ensures RecordJson(e) == JObj([
              ("_t", JStr(e.stamp)),
              ("fp", JStr(e.fp)),
              ("fp_md5", JStr(e.fpMd5)),
              ("props", PropsJson(e.props)),
              ("sql", JStr(e.sql))])
  {
    RecordJsonFields(e);
    RecordFieldsAt(e);
    RecordKeysSorted();
    ObjectOfFive(RecordFields(e), RecordKeys);
  }

  /** `RecordJson` is the object of `RecordFields`: the two dictionaries are the same. */
  lemma RecordJsonFields(e: LogEvent)
    ensures RecordJson(e) == Object(RecordFields(e))
  {
  }

  /** The dictionary's keys are the five member names, each with its value. */
  lemma RecordFieldsAt(e: LogEvent)
    ensures forall k :: k in RecordKeys <==> k in RecordFields(e)
    ensures RecordFields(e)[RecordKeys[0]] == JStr(e.stamp)
    ensures RecordFields(e)[RecordKeys[1]] == JStr(e.fp)
    ensures RecordFields(e)[RecordKeys[2]] == JStr(e.fpMd5)
    ensures RecordFields(e)[RecordKeys[3]] == PropsJson(e.props)
    ensures RecordFields(e)[RecordKeys[4]] == JStr(e.sql)
  {
  }

  /** `LogEvent.json()`: the record as compact JSON text. */
  function EventJson(e: LogEvent, lib: JsonLib): (r: string)
    ensures |r| >= 2 && r[0] == '{' && r[|r| - 1] == '}'
  {
    Render(RecordJson(e), lib)
  }

  /** The wire format of one record: `{"_t":…,"fp":…,"fp_md5":…,"props":{…},"sql":…}` with the
      member names written as they are and no whitespace between members. */
  lemma RecordText(e: LogEvent, lib: JsonLib)
    requires KeepsPlainText(lib)
    ensures EventJson(e, lib) ==
              "{" + "\"_t\"" + ":" + Quote(e.stamp, lib)
              + "," + "\"fp\"" + ":" + Quote(e.fp, lib)
              + "," + "\"fp_md5\"" + ":" + Quote(e.fpMd5, lib)
              + "," + "\"props\"" + ":" + Render(PropsJson(e.props), lib)
              + "," + "\"sql\"" + ":" + Quote(e.sql, lib)
              + "}"
  {
    RecordLayout(e);
    RenderFiveMembers(RecordJson(e).members, lib);
    MembersText(Quote("_t", lib), Quote(e.stamp, lib), Quote("fp", lib), Quote(e.fp, lib),
                Quote("fp_md5", lib), Quote(e.fpMd5, lib), Quote("props", lib), Render(PropsJson(e.props), lib),
                Quote("sql", lib), Quote(e.sql, lib));
    RecordKeysPlain(lib);
  }

  /** The five member names are plain text, so they are written as they are. */
  lemma RecordKeysPlain(lib: JsonLib)
    requires KeepsPlainText(lib)
    ensures Quote("_t", lib) == "\"_t\"" && Quote("fp", lib) == "\"fp\"" && Quote("fp_md5", lib) == "\"fp_md5\""
    ensures Quote("props", lib) == "\"props\"" && Quote("sql", lib) == "\"sql\""
  {
    MemberNames();
    PlainName("_t", lib);
    PlainName("fp", lib);
    PlainName("fp_md5", lib);
    PlainName("props", lib);
    PlainName("sql", lib);
    QuotedNames();
  }

  lemma MemberNames()
    ensures IsMemberName("_t") && IsMemberName("fp") && IsMemberName("fp_md5")
    ensures IsMemberName("props") && IsMemberName("sql")
  {
  }

  lemma QuotedNames()
    ensures "\"" + "_t" + "\"" == "\"_t\"" && "\"" + "fp" + "\"" == "\"fp\""
    ensures "\"" + "fp_md5" + "\"" == "\"fp_md5\""
    ensures "\"" + "props" + "\"" == "\"props\"" && "\"" + "sql" + "\"" == "\"sql\""
  {
  }

  /** A name made of lowercase letters, digits and `_`, checked character by character. */
  predicate IsMemberName(name: string)
  {
    |name| == 0 || (('a' <= name[0] <= 'z' || '0' <= name[0] <= '9' || name[0] == '_') && IsMemberName(name[1..]))
  }

  /** Such a name is plain text, so it is written as it is. */
  lemma {:induction false} PlainName(name: string, lib: JsonLib)
    requires KeepsPlainText(lib) && IsMemberName(name)
    ensures Quote(name, lib) == "\"" + name + "\""
  {
    MemberNameIsPlain(name);
    QuotePlain(name, lib);
  }

  lemma {:induction false} MemberNameIsPlain(name: string)
    requires IsMemberName(name)
    ensures forall i :: 0 <= i < |name| ==> IsPlainChar(name[i])
  {
    if |name| > 0 {
      MemberNameIsPlain(name[1..]);
      assert forall i :: 1 <= i < |name| ==> name[i] == name[1..][i - 1];
    }
  }

  /** Regrouping the text of five members. */
  lemma MembersText(k0: string, v0: string, k1: string, v1: string, k2: string, v2: string,
                    k3: string, v3: string, k4: string, v4: string)
    ensures "{" + Concat([k0 + ":" + v0, "," + k1 + ":" + v1, "," + k2 + ":" + v2,
                          "," + k3 + ":" + v3, "," + k4 + ":" + v4]) + "}"
            == "{" + k0 + ":" + v0 + "," + k1 + ":" + v1 + "," + k2 + ":" + v2
               + "," + k3 + ":" + v3 + "," + k4 + ":" + v4 + "}"
  {
    var p0 := k0 + ":" + v0;
    var p1 := "," + k1 + ":" + v1;
    var p2 := "," + k2 + ":" + v2;
    var p3 := "," + k3 + ":" + v3;
    var p4 := "," + k4 + ":" + v4;
    ConcatFive(p0, p1, p2, p3, p4);
    var t0 := "{" + k0 + ":" + v0;
    var t1 := t0 + "," + k1 + ":" + v1;
    var t2 := t1 + "," + k2 + ":" + v2;
    var t3 := t2 + "," + k3 + ":" + v3;
    var t4 := t3 + "," + k4 + ":" + v4;
    assert t0 == "{" + p0;
    assert t1 == "{" + p0 + p1;
    assert t2 == "{" + p0 + p1 + p2;
    assert t3 == "{" + p0 + p1 + p2 + p3;
    assert t4 == "{" + p0 + p1 + p2 + p3 + p4;
  }
}
