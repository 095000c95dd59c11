/** `lambda_handler`: turn one decoded batch into records, order them by time and publish
    them to the log stream, carrying the sequence token from one invocation to the next. */
module Publish {
  import opened Wrappers
  import opened Json
  import opened Events

  /** One entry of the list handed to `put_log_events`. */
  datatype SinkEvent = SinkEvent(timestamp: int, message: string)

  /** A request made to the log service. */
  datatype SinkCall =
    | CreateLogStream(group: string, stream: string)
    | PutLogEvents(group: string, stream: string, events: seq<SinkEvent>, sequenceToken: Option<string>)

  predicate SortedByTimestamp(evs: seq<SinkEvent>)
  {
    forall i, j :: 0 <= i < j < |evs| ==> evs[i].timestamp <= evs[j].timestamp
  }

  /** Puts `x` in front of the first entry that is not earlier than it. */
  function Insert(x: SinkEvent, ys: seq<SinkEvent>): (r: seq<SinkEvent>)
    ensures multiset(r) == multiset(ys) + multiset{x}
  {
    if |ys| == 0 || x.timestamp <= ys[0].timestamp then [x] + ys
    else
      assert ys == [ys[0]] + ys[1..];
      [ys[0]] + Insert(x, ys[1..])
  }

  lemma InsertMembers(x: SinkEvent, ys: seq<SinkEvent>)
    ensures forall z :: z in Insert(x, ys) ==> z == x || z in ys
  {
    forall z | z in Insert(x, ys) ensures z == x || z in ys {
      assert z in multiset(Insert(x, ys));
    }
  }

  /** A sorted sequence stays sorted with an entry in front that is not later than any of it. */
  lemma SortedCons(y: SinkEvent, rest: seq<SinkEvent>)
    requires SortedByTimestamp(rest)
    requires forall z :: z in rest ==> y.timestamp <= z.timestamp
    ensures SortedByTimestamp([y] + rest)
  {
    var r := [y] + rest;
    forall i, j | 0 <= i < j < |r| ensures r[i].timestamp <= r[j].timestamp {
      assert r[j] == rest[j - 1] && r[j] in rest;
      if i > 0 {
        assert r[i] == rest[i - 1];
      }
    }
  }

  lemma {:induction false} InsertSorted(x: SinkEvent, ys: seq<SinkEvent>)
    requires SortedByTimestamp(ys)
    ensures SortedByTimestamp(Insert(x, ys))
  {
    if |ys| == 0 || x.timestamp <= ys[0].timestamp {
      SortedCons(x, ys);
    } else {
      var rest := Insert(x, ys[1..]);
      assert SortedByTimestamp(ys[1..]) by {
        forall i, j | 0 <= i < j < |ys[1..]| ensures ys[1..][i].timestamp <= ys[1..][j].timestamp {
          assert ys[1..][i] == ys[i + 1] && ys[1..][j] == ys[j + 1];
        }
      }
      InsertSorted(x, ys[1..]);
      InsertMembers(x, ys[1..]);
      forall z | z in rest ensures ys[0].timestamp <= z.timestamp {
        if z != x {
          var k :| 0 <= k < |ys[1..]| && ys[1..][k] == z;
          assert ys[k + 1] == z;
        }
      }
      SortedCons(ys[0], rest);
    }
  }

  /** `sorted(..., key=lambda ev: ev['timestamp'])`: a stable sort on the timestamp. */
  function SortByTimestamp(evs: seq<SinkEvent>): (r: seq<SinkEvent>)
    ensures SortedByTimestamp(r)
    ensures multiset(r) == multiset(evs)
  {
    if |evs| == 0 then []
    else
      assert evs == [evs[0]] + evs[1..];
      InsertSorted(evs[0], SortByTimestamp(evs[1..]));
      Insert(evs[0], SortByTimestamp(evs[1..]))
  }

  /** The entries with timestamp `t`, in the order they come. */
  function WithTimestamp(t: int, evs: seq<SinkEvent>): seq<SinkEvent>
  {
    if |evs| == 0 then []
    else (if evs[0].timestamp == t then [evs[0]] else []) + WithTimestamp(t, evs[1..])
  }

  lemma WithTimestampCons(t: int, x: SinkEvent, evs: seq<SinkEvent>)
    ensures WithTimestamp(t, [x] + evs) == (if x.timestamp == t then [x] else []) + WithTimestamp(t, evs)
  {
    assert ([x] + evs)[0] == x && ([x] + evs)[1..] == evs;
  }

  lemma {:induction false} InsertWithTimestamp(t: int, x: SinkEvent, ys: seq<SinkEvent>)
    ensures WithTimestamp(t, Insert(x, ys)) == (if x.timestamp == t then [x] else []) + WithTimestamp(t, ys)
  {
    if |ys| == 0 || x.timestamp <= ys[0].timestamp {
      WithTimestampCons(t, x, ys);
    } else {
      InsertWithTimestamp(t, x, ys[1..]);
      WithTimestampCons(t, ys[0], Insert(x, ys[1..]));
      WithTimestampCons(t, ys[0], ys[1..]);
      assert ys == [ys[0]] + ys[1..];
    }
  }

  /** The sort is stable: entries with equal timestamps keep the order they had. */
  lemma {:induction false} SortIsStable(evs: seq<SinkEvent>, t: int)
    ensures WithTimestamp(t, SortByTimestamp(evs)) == WithTimestamp(t, evs)
  {
    if |evs| > 0 {
      SortIsStable(evs[1..], t);
      InsertWithTimestamp(t, evs[0], SortByTimestamp(evs[1..]));
    }
  }

  /** Each entry of the batch run through `LogEvent.from_event`. */
  function Converted(batch: seq<RawLogEvent>, svc: Services): (rs: seq<Result<LogEvent, Error>>)
    ensures |rs| == |batch| && forall i :: 0 <= i < |batch| ==> rs[i] == FromEvent(batch[i], svc)
  {
    seq(|batch|, i requires 0 <= i < |batch| => FromEvent(batch[i], svc))
  }

  /** The loop over `data['logEvents']` on the conversion results: all values when every
      conversion succeeds, otherwise the error of the first one that failed. */
  function Collect<T>(rs: seq<Result<T, Error>>): (r: Result<seq<T>, Error>)
    ensures r.Success? <==> forall i :: 0 <= i < |rs| ==> rs[i].Success?
    ensures r.Success? ==> |r.value| == |rs| && forall i :: 0 <= i < |rs| ==> r.value[i] == rs[i].value
    ensures r.Failure? ==>
              exists i :: 0 <= i < |rs| && rs[i] == Failure(r.error) && forall j :: 0 <= j < i ==> rs[j].Success?
  {
    if |rs| == 0 then Success([])
    else
      var init := rs[..|rs| - 1];
      match Collect(init)
      case Failure(e) =>
        var i :| 0 <= i < |init| && init[i] == Failure(e) && forall j :: 0 <= j < i ==> init[j].Success?;
        assert rs[i] == init[i] && forall j :: 0 <= j < i ==> rs[j] == init[j];
        Failure(e)
      case Success(vs) =>
        assert forall j :: 0 <= j < |init| ==> rs[j] == init[j];
        match rs[|rs| - 1]
        case Failure(e) => Failure(e)
        case Success(v) => Success(vs + [v])
  }

  /** The records of a batch: every entry converted, or the first error met. */
  function Assemble(batch: seq<RawLogEvent>, svc: Services): (r: Result<seq<LogEvent>, Error>)
    ensures r.Success? ==>
              |r.value| == |batch| && forall i :: 0 <= i < |batch| ==> r.value[i].timestamp == batch[i].timestamp
    ensures r.Failure? ==> exists i :: 0 <= i < |batch| && FromEvent(batch[i], svc) == Failure(r.error)
  {
    Collect(Converted(batch, svc))
  }

  /** The batch converts exactly when every entry does, giving one record per entry in batch
      order. */
  lemma AssembleSucceeds(batch: seq<RawLogEvent>, svc: Services)
    ensures var r := Assemble(batch, svc);
            && (r.Success? <==> forall i :: 0 <= i < |batch| ==> FromEvent(batch[i], svc).Success?)
            && (r.Success? ==>
                  |r.value| == |batch| && forall i :: 0 <= i < |batch| ==> r.value[i] == FromEvent(batch[i], svc).value)
  {
    var rs := Converted(batch, svc);
    assert forall i :: 0 <= i < |batch| ==> rs[i] == FromEvent(batch[i], svc);
  }

  /** A batch that does not convert fails with the error of the first entry that does not. */
  lemma AssembleFailsAtFirst(batch: seq<RawLogEvent>, svc: Services)
    ensures var r := Assemble(batch, svc);
            r.Failure? ==>
              exists i :: 0 <= i < |batch| && FromEvent(batch[i], svc) == Failure(r.error)
                          && forall j :: 0 <= j < i ==> FromEvent(batch[j], svc).Success?
  {
    var rs := Converted(batch, svc);
    var r := Collect(rs);
    assert Assemble(batch, svc) == r;
    if r.Failure? {
      var i :| 0 <= i < |rs| && rs[i] == Failure(r.error) && forall j :: 0 <= j < i ==> rs[j].Success?;
      assert FromEvent(batch[i], svc) == Failure(r.error) by {
        assert rs[i] == FromEvent(batch[i], svc);
      }
      assert forall j :: 0 <= j < i ==> FromEvent(batch[j], svc).Success? by {
        forall j | 0 <= j < i ensures FromEvent(batch[j], svc).Success? {
          assert rs[j] == FromEvent(batch[j], svc);
        }
      }
    }
  }

  /** One more result, as the loop body meets it: a value extends the collected values, an
      error ends the whole sequence with that error. */
  lemma CollectExtend<T>(rs: seq<Result<T, Error>>, i: nat, vs: seq<T>)
    requires i < |rs| && Collect(rs[..i]) == Success(vs)
    ensures rs[i].Success? ==> Collect(rs[..i + 1]) == Success(vs + [rs[i].value])
    ensures rs[i].Failure? ==> Collect(rs) == Failure(rs[i].error)
  {
    assert rs[..i + 1][..i] == rs[..i];
    if rs[i].Failure? {
      PrefixFailure(rs, i + 1);
    }
  }

  /** Once a prefix of the results fails, the whole sequence fails with the same error. */
  lemma {:induction false} PrefixFailure<T>(rs: seq<Result<T, Error>>, n: nat)
    requires n <= |rs| && Collect(rs[..n]).Failure?
    ensures Collect(rs) == Collect(rs[..n])
    decreases |rs| - n
  {
    if n < |rs| {
      assert rs[..n + 1][..n] == rs[..n];
      PrefixFailure(rs, n + 1);
    } else {
      assert rs[..n] == rs;
    }
  }

  /** The entries for `put_log_events`, one per record, in the records' order. */
  function Records(es: seq<LogEvent>, svc: Services, lib: JsonLib): (r: seq<SinkEvent>)
    ensures |r| == |es|
    ensures forall i :: 0 <= i < |es| ==>
              r[i].timestamp == EpochMs(es[i], svc) && r[i].message == EventJson(es[i], lib)
  {
    seq(|es|, i requires 0 <= i < |es| => SinkEvent(EpochMs(es[i], svc), EventJson(es[i], lib)))
  }

  /** `call` is a put to the stream of exactly the given entries, sorted by timestamp, with
      the given sequence token. */
  predicate PutsInTimeOrder(call: SinkCall, entries: seq<SinkEvent>, group: string, stream: string,
                            token: Option<string>)
  {
    && call.PutLogEvents? && call.group == group && call.stream == stream && call.sequenceToken == token
    && SortedByTimestamp(call.events) && multiset(call.events) == multiset(entries)
  }

  /** How an invocation ends: it returns, or it raises the error it met. */
  datatype Outcome = Done | Failed(error: Error)

  /** What one invocation does: its outcome, the token it leaves behind and the calls it makes. */
  datatype Step = Step(outcome: Outcome, token: Option<string>, calls: seq<SinkCall>)

  /** One run of `lambda_handler`. `decoded` is the batch `decode` produced (None when the
      envelope could not be decoded), `token` the sequence token kept from the previous run,
      `stream` the context's log stream name and `nextToken` the `nextSequenceToken` the service
      answers the put with. It fails exactly when decoding or a conversion fails, and then
      calls nothing; otherwise any calls it makes are a stream creation exactly when no token
      is kept, then one put, last, with the kept token, and a put replaces the kept token. */
  function Invoke(token: Option<string>, decoded: Option<seq<RawLogEvent>>, svc: Services, lib: JsonLib,
                  group: string, stream: string, nextToken: string): (r: Step)
    ensures r.outcome.Failed? <==> decoded.None? || Assemble(decoded.value, svc).Failure?
    ensures r.outcome.Failed? ==> r.token == token && r.calls == []
    ensures r.calls == [] ==> r.token == token
    ensures r.calls != [] ==> r.token == Some(nextToken)
    ensures r.calls != [] ==> r.calls[|r.calls| - 1].PutLogEvents? && r.calls[|r.calls| - 1].sequenceToken == token
    ensures r.calls != [] ==> |r.calls| == (if token.None? then 2 else 1)
    ensures r.calls != [] && token.None? ==> r.calls[0] == CreateLogStream(group, stream)
  {
    match decoded
    case None => Step(Failed(DecodeError), token, [])
    case Some(batch) =>
      match Assemble(batch, svc)
      case Failure(e) => Step(Failed(e), token, [])
      case Success(es) => Publication(token, es, svc, lib, group, stream, nextToken)
  }

  /** What the handler does once the records are built: nothing for an empty list, otherwise
      one put of the records in time order, preceded by the creation of the stream when no
      token is kept. */
  function Publication(token: Option<string>, es: seq<LogEvent>, svc: Services, lib: JsonLib,
                       group: string, stream: string, nextToken: string): (r: Step)
    ensures r.outcome == Done
    ensures r.calls == [] <==> |es| == 0
    ensures r.calls == [] ==> r.token == token
    ensures r.calls != [] ==> r.token == Some(nextToken)
    ensures r.calls != [] ==> |r.calls| == (if token.None? then 2 else 1)
    ensures r.calls != [] && token.None? ==> r.calls[0] == CreateLogStream(group, stream)
    ensures r.calls != [] ==> r.calls[|r.calls| - 1].PutLogEvents? && r.calls[|r.calls| - 1].sequenceToken == token
  {
    if |es| == 0 then Step(Done, token, [])
    else
      var events := SortByTimestamp(Records(es, svc, lib));
      var create := if token.None? then [CreateLogStream(group, stream)] else [];
      Step(Done, Some(nextToken), create + [PutLogEvents(group, stream, events, token)])
  }

  /** A publication of some records, written out. */
  lemma PublicationPuts(token: Option<string>, es: seq<LogEvent>, svc: Services, lib: JsonLib,
                        group: string, stream: string, nextToken: string)
    requires |es| > 0
    ensures Publication(token, es, svc, lib, group, stream, nextToken)
            == Step(Done, Some(nextToken), (if token.None? then [CreateLogStream(group, stream)] else [])
                                           + [PutLogEvents(group, stream, SortByTimestamp(Records(es, svc, lib)), token)])
  {
  }

  /** The last call of a publication is one put of exactly the records' entries, in time
      order, carrying the kept token. */
  lemma PublicationPutsInTimeOrder(token: Option<string>, es: seq<LogEvent>, svc: Services, lib: JsonLib,
                                   group: string, stream: string, nextToken: string)
    requires |es| > 0
    ensures var r := Publication(token, es, svc, lib, group, stream, nextToken);
            |r.calls| > 0 && PutsInTimeOrder(r.calls[|r.calls| - 1], Records(es, svc, lib), group, stream, token)
  {
  }

  /** An empty batch returns at once: no call to the service and the token is kept. */
  lemma EmptyBatchPublishesNothing(token: Option<string>, svc: Services, lib: JsonLib,
                                   group: string, stream: string, nextToken: string)
    ensures Invoke(token, Some([]), svc, lib, group, stream, nextToken) == Step(Done, token, [])
  {
  }

  /** An invocation fails exactly when decoding fails or some entry fails to become a record,
      and then it has made no call and kept the token. */
  lemma FailureIsAtomic(token: Option<string>, decoded: Option<seq<RawLogEvent>>, svc: Services, lib: JsonLib,
                        group: string, stream: string, nextToken: string)
    ensures var step := Invoke(token, decoded, svc, lib, group, stream, nextToken);
            && (step.outcome.Failed? <==>
                  decoded.None? || exists i :: 0 <= i < |decoded.value| && FromEvent(decoded.value[i], svc).Failure?)
            && (step.outcome.Failed? ==> step.token == token && step.calls == [])
            && (decoded.None? ==> step.outcome == Failed(DecodeError))
  {
  }

  /** A batch that converts to a non-empty list of records is published with a single put of
      those records in time order (see `SortByTimestamp` and `SortIsStable`). Without a kept
      token the stream is created first and the put carries no token; with one, no stream is
      created and the put carries it. Afterwards the kept token is the one the service answered
      with. */
  lemma PublishProtocol(token: Option<string>, batch: seq<RawLogEvent>, es: seq<LogEvent>, svc: Services,
                        lib: JsonLib, group: string, stream: string, nextToken: string)
    requires Assemble(batch, svc) == Success(es) && |es| > 0
    ensures Invoke(token, Some(batch), svc, lib, group, stream, nextToken)
            == Step(Done, Some(nextToken),
                    (if token.None? then [CreateLogStream(group, stream)] else [])
                    + [PutLogEvents(group, stream, SortByTimestamp(Records(es, svc, lib)), token)])
  {
  }

  /** Two publishing invocations in a row: the second creates no stream and puts with the
      token the first one received. */
  lemma TokenCarriesOver(token: Option<string>, first: seq<RawLogEvent>, es1: seq<LogEvent>,
                         second: seq<RawLogEvent>, es2: seq<LogEvent>, svc: Services, lib: JsonLib,
                         group: string, stream: string, next1: string, next2: string)
    requires Assemble(first, svc) == Success(es1) && |es1| > 0
    requires Assemble(second, svc) == Success(es2) && |es2| > 0
    ensures var step1 := Invoke(token, Some(first), svc, lib, group, stream, next1);
            var step2 := Invoke(step1.token, Some(second), svc, lib, group, stream, next2);
            step2 == Step(Done, Some(next2),
                          [PutLogEvents(group, stream, SortByTimestamp(Records(es2, svc, lib)), Some(next1))])
  {
    PublishProtocol(token, first, es1, svc, lib, group, stream, next1);
    PublishProtocol(Some(next1), second, es2, svc, lib, group, stream, next2);
  }

  /** The `try` block of `lambda_handler`: each entry of the batch through
      `LogEvent.from_event`, in order, stopping at the first that raises. */
  method BuildEvents(batch: seq<RawLogEvent>, svc: Services) returns (r: Result<seq<LogEvent>, Error>)
    ensures r == Assemble(batch, svc)
  {
    ghost var converted := Converted(batch, svc);
    var logEvents: seq<LogEvent> := [];
    for i := 0 to |batch|
      invariant Collect(converted[..i]) == Success(logEvents)
    {
      var le := FromEvent(batch[i], svc);
      CollectExtend(converted, i, logEvents);
      assert converted[i] == le;
      if le.Failure? {
        return Failure(le.error);
      }
      logEvents := logEvents + [le.value];
    }
    assert converted[..|batch|] == converted;
    return Success(logEvents);
  }

  /** The module state of `index.py`: the log group read at load time, the sequence token kept
      between invocations, and the calls made to the log service so far. */
  class Handler {
    const logGroup: string
    var seqToken: Option<string>
    var calls: seq<SinkCall>

    constructor (logGroup: string)
      ensures this.logGroup == logGroup && seqToken == None && calls == []
    {
      this.logGroup := logGroup;
      seqToken := None;
      calls := [];
    }

    /** `lambda_handler(event, context)`. */
    method Handle(decoded: Option<seq<RawLogEvent>>, svc: Services, lib: JsonLib, stream: string, nextToken: string)
      returns (outcome: Outcome)
      modifies this
      ensures var step := Invoke(old(seqToken), decoded, svc, lib, logGroup, stream, nextToken);
              && outcome == step.outcome
              && seqToken == step.token
              && calls == old(calls) + step.calls
    {
      if decoded.None? {
        return Failed(DecodeError);
      }
      var assembled := BuildEvents(decoded.value, svc);
      if assembled.Failure? {
        return Failed(assembled.error);
      }
      outcome := PublishRecords(assembled.value, svc, lib, stream, nextToken);
    }

    /** From the length test on: an empty list returns at once, otherwise the records are
        sorted by time and put. */
    method PublishRecords(logEvents: seq<LogEvent>, svc: Services, lib: JsonLib, stream: string, nextToken: string)
      returns (outcome: Outcome)
      modifies this
      ensures var step := Publication(old(seqToken), logEvents, svc, lib, logGroup, stream, nextToken);
              && outcome == step.outcome
              && seqToken == step.token
              && calls == old(calls) + step.calls
    {
      if |logEvents| == 0 {
        return Done;
      }
      var events := SortByTimestamp(Records(logEvents, svc, lib));
      PublicationPuts(seqToken, logEvents, svc, lib, logGroup, stream, nextToken);
      PutBatch(events, stream, nextToken);
      return Done;
    }

    /** The end of `lambda_handler`: create the stream when no token is kept, put the events
      with the kept token if there is one, and keep the token the service answers with. */
    method PutBatch(events: seq<SinkEvent>, stream: string, nextToken: string)
      modifies this
      ensures calls == old(calls) + (if old(seqToken).None? then [CreateLogStream(logGroup, stream)] else [])
                                  + [PutLogEvents(logGroup, stream, events, old(seqToken))]
      ensures seqToken == Some(nextToken)
    {
      if seqToken.None? {
        calls := calls + [CreateLogStream(logGroup, stream)];
      }
      calls := calls + [PutLogEvents(logGroup, stream, events, seqToken)];
      seqToken := Some(nextToken);
    }
  }
}
