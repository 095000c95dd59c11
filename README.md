# Slow-query log shipper, modelled in Dafny

`index.py` is a log-subscription handler. It receives a compressed batch of MySQL slow-query
log entries and turns each entry into one JSON record:

- `parse` splits the message into the SQL text and the `# Key: value` annotations. It drops
  the `SET timestamp=` and `use ` lines and converts the integer and float annotations.
- `fingerprint` normalises the SQL with `pt-fingerprint`.
- `fp_md5` names the fingerprint by its MD5.

The handler then orders the records by time and writes them to one log stream with
`put_log_events`. It keeps the stream's sequence token between invocations and creates the
stream on the first write.

The model is organised by the program's own parts:

| module | file | what it holds |
|---|---|---|
| `Wrappers` | `wrappers.dfy` | `Option`, `Result`, and the three ways an invocation fails |
| `Text` | `text.dfy` | `str.startswith`, `str.split` and `str.join` with a one-character separator |
| `Annotations` | `annotations.dfy` | `commentRe.findall`, written out as the backtracking search behaves on that pattern |
| `Coercion` | `coercion.dfy` | `int_keys`, `float_keys`, and the text `int()` and `float()` accept |
| `SlowLog` | `slowlog.dfy` | `parse`: a specification function `ParseSpec` and the two-loop method `Parse`, proved equal |
| `Json` | `json.dfy` | `json.dumps(..., separators=(',', ':'), sort_keys=True)`: member order and separators |
| `Events` | `events.dfy` | `LogEvent.from_event`, `fingerprint`, `fp_md5` and the record layout |
| `Publish` | `publish.dfy` | `lambda_handler`: the conversion loop, the stable sort and the sequence-token protocol |

Several collaborators are passed in as function values (`Events.Services`, `Json.JsonLib`):

- the `pt-fingerprint` process (exit code, stdout, stderr);
- MD5;
- the UTC text of a timestamp;
- `epoch_ms`;
- JSON string escaping;
- float `repr`.

The decoded envelope is an `Option` (None when decoding fails). The `nextSequenceToken` the
log service answers with is a parameter of the handler.

The module globals `log_group` and `log_seq_token` become the class `Publish.Handler`. The
class also records, in `calls`, every request made to the log service.

## Model

| member | source | states |
|---|---|---|
| Text.Split | index.py:49 | `str.split` on one character: at least one piece, and no piece holds the separator; `Text.JoinSplit` is its inverse |
| Text.Join | index.py:68 | `'\n'.join`: the text starts with the first piece, and with two or more pieces the separator follows it; `Text.SplitJoin` and `Text.JoinSplit` make it the inverse of `Text.Split` on non-empty lists of pieces without the separator |
| Text.JoinSplit | index.py:49 | splitting a message on `\n` and joining the pieces with `\n` gives back the message |
| Text.SplitJoin | index.py:68 | a non-empty list of lines without `\n`, joined with `\n`, splits back into the same lines |
| Text.JoinEmpty | index.py:68 | the join is empty exactly when there is no piece or one empty piece |
| Annotations.ValueEnd | index.py:17 | the value group ends on a non-whitespace character, after its start, at a position where the lookahead holds: a whitespace run, a word and `: ` follow, or the text ends |
| Annotations.MatchAt | index.py:17 | one match attempt ends after it starts and yields a well-formed pair; without a `:` ahead there is no match |
| Annotations.PairsFrom | index.py:17 | every pair `findall` returns is well formed; a text with no `:` from the start position gives none |
| Annotations.Pairs | index.py:17 | `commentRe.findall(text)`: every key is non-empty and holds no `:`, every value is non-empty and starts and ends with a non-whitespace character; no `:` means no pairs |
| Coercion.KeySetsDisjoint | index.py:19-30 | no key is both an integer key and a float key |
| Coercion.CoerceValueTreats | index.py:62-66 | one key's conversion fails exactly when its value is rejected by `int()` for an integer key or by `float()` for a float key; otherwise the key gets its set's treatment |
| Coercion.Coerce | index.py:62-66 | the second loop fails exactly when some integer or float key holds a rejected value; otherwise it keeps the key set, integer keys get their integer, float keys their literal, other keys keep their text |
| Coercion.ParseInt | index.py:64 | `int(v)` succeeds exactly when the text without surrounding whitespace is a digit part with an optional sign; the result is the number the digits spell, negated after `-` |
| Coercion.ParseIntShow | index.py:64 | `int()` reads back every integer's decimal text |
| Coercion.IsFloatLiteral | index.py:66 | `float(v)` rejects text that is empty or all whitespace |
| Coercion.CoerceRejects | index.py:62-66 | one rejected value makes the whole second loop fail |
| Coercion.CoerceAccepts | index.py:62-66 | when every value converts, the second loop gives exactly the converted dictionary |
| SlowLog.ParseSpec | index.py:45-68 | `parse` fails with `CoercionError` exactly when some integer or float annotation holds a value its conversion rejects; otherwise it keeps every annotation key, each with its key's treatment |
| SlowLog.Classify | index.py:50-58 | a line is an annotation exactly when it starts `# `; a skipped line starts `SET timestamp=` or `use `; a SQL line passes none of the three tests (see `SlowLog.AnnotationTestComesFirst` and `SlowLog.PrefixTestsAreExact`) |
| SlowLog.ScanStep | index.py:49-60 | one loop step: a `# ` line adds its pairs to the dictionary and keeps no SQL; any other line leaves the dictionary alone and is kept unless it starts `SET timestamp=` or `use ` |
| SlowLog.ScanLines | index.py:46-60 | the first loop yields exactly the kept lines and the dictionary of all annotation pairs, values as text |
| SlowLog.ConvertValues | index.py:62-66 | the second loop, with its in-place updates, yields exactly `Coerce` of the raw dictionary, or fails when `Coerce` does |
| SlowLog.Parse | index.py:45-68 | the procedure returns `ParseSpec(message)`: the kept lines joined by `\n` and the typed annotations, or `CoercionError` |
| SlowLog.AnnotationTestComesFirst | index.py:50-57 | for every continuation: a line starting `# ` is an annotation, even when `SET timestamp=` or `use ` follows; a line starting `SET timestamp=` or `use ` is skipped |
| SlowLog.PrefixTestsAreExact | index.py:50-57 | for every continuation, the tests are case-sensitive and anchored: a line starting `USE `, `set timestamp=` or a space, or `#` not followed by a space, is SQL |
| SlowLog.SqlLinesAppend | index.py:49-60 | filtering distributes over concatenation, so kept lines keep their relative order |
| SlowLog.SqlLinesMember | index.py:49-60 | a line is kept exactly when it is in the message and passes none of the three tests |
| SlowLog.SqlLinesAllKept | index.py:49-60 | when every line is SQL, the kept lines are all the lines |
| SlowLog.UpdateLastWins | index.py:51 | `dict.update` pair by pair: a key is present exactly when the old dict or some pair has it; the last pair naming it decides its value; unnamed keys keep theirs |
| SlowLog.UpdateAppend | index.py:51 | updating with two lists of pairs is updating with the first and then the second |
| SlowLog.UpdateWithDict | index.py:51 | `props.update(dict(pairs))` equals applying the pairs one by one |
| SlowLog.RawPropsIsAllPairs | index.py:49-52 | the per-line updates build the dictionary of all pairs of the message in order |
| SlowLog.AnnotationLastWins | index.py:49-52 | a key is in `props` exactly when some annotation pair names it, and the last such pair in the message wins, across lines and within one |
| SlowLog.AllPairsWellFormed | index.py:49-52 | every collected pair is well formed |
| SlowLog.NoAnnotationLinesNoProps | index.py:49-52 | no `# ` line means an empty dictionary |
| SlowLog.ParseWithoutAnnotations | index.py:45-68 | without `# ` lines, `parse` returns the filtered lines joined by `\n` and empty props |
| SlowLog.ParsePlainMessage | index.py:45-68 | a message none of whose lines is dropped comes back unchanged, with empty props |
| SlowLog.ParseSqlSplitsBack | index.py:49-68 | when `parse` succeeds and at least one line is kept, splitting the returned SQL on `\n` gives back exactly the kept lines, in order; with no kept line the SQL is `""` (`SlowLog.ParseEmptySql`) |
| SlowLog.ParseEmptySql | index.py:60-68 | the SQL text is empty exactly when no line is kept or the only kept line is empty; a message whose every line is dropped gives `""` |
| SlowLog.ParsedKeysHaveNoColon | index.py:45-68 | every key of a successful parse is non-empty and holds no `:` |
| Json.StrLtTotal | index.py:109 | Python's string order is total on distinct strings |
| Json.StrLtTransitive | index.py:109 | Python's string order is transitive |
| Json.SortedKeys | index.py:109 | the keys in `sort_keys` order: each key exactly once, strictly increasing |
| Json.SortedUnique | index.py:109 | a set of keys has exactly one strictly increasing listing |
| Json.Object | index.py:100-109 | a dict as `json.dumps` writes it: one member per key, with that key's value, in strictly increasing key order |
| Json.ObjectMembers | index.py:100-109 | listing the keys in increasing order gives exactly the members `Object` writes |
| Json.Render | index.py:99-109 | the compact text: a string is written between `"` quotes, an object between `{` and `}`, and an empty object as `{}`; `Json.RenderFiveMembers` gives the separators |
| Json.RenderFiveMembers | index.py:108 | the text of a five-member object: `{`, members separated by `,`, key and value separated by `:`, `}` |
| Events.Fingerprint | index.py:71-76 | succeeds exactly when `pt-fingerprint` exits 0, with its stdout; otherwise `FingerprintError` with its stderr |
| Events.Hex | index.py:97 | `hexdigest()`: two lowercase hex digits per byte |
| Events.UnhexHex | index.py:97 | the hex text determines the digest: reading it back gives the bytes |
| Events.FpMd5 | index.py:97 | `fp_md5` is `0x` followed by 32 lowercase hex digits |
| Events.FpMd5SameExactlyWhenDigestSame | index.py:97 | two fingerprints get the same `fp_md5` exactly when their MD5 digests are equal |
| Events.FromEvent | index.py:88-97 | fails with the parse error when parsing fails, or with `FingerprintError(stderr)` exactly when the normalizer exits non-zero; otherwise the record carries the envelope time, the parsed SQL and props, the fingerprint and its `fp_md5` |
| Events.RecordKeysSorted | index.py:101-109 | `_t` < `fp` < `fp_md5` < `props` < `sql` in Python's string order |
| Events.RecordLayout | index.py:99-109 | the record has exactly the members `_t`, `fp`, `fp_md5`, `props`, `sql`, in that order, holding the time text, fingerprint, identity, annotations and SQL |
| Events.EventJson | index.py:99-109 | `LogEvent.json()` is an object text, between `{` and `}`; `Events.RecordText` gives it member by member |
| Json.QuotePlain | index.py:100-109 | with `json.dumps` escaping, a string of printable ASCII other than `"` and `\` is written between quotes unchanged |
| Events.RecordKeysPlain | index.py:101-106 | the five member names are written as `"_t"`, `"fp"`, `"fp_md5"`, `"props"`, `"sql"` |
| Events.RecordText | index.py:99-109 | with `json.dumps` escaping, the record text is `{"_t":…,"fp":…,"fp_md5":…,"props":{…},"sql":…}`, with the literal member names and no whitespace |
| Publish.SortByTimestamp | index.py:130-135 | the result is ordered by timestamp and is a permutation of the input |
| Publish.SortIsStable | index.py:130-135 | entries with equal timestamps keep their original relative order |
| Publish.Collect | index.py:118-125 | the conversion loop succeeds exactly when every entry converts, with one value per entry in order; otherwise it fails with the error of the first failing entry |
| Publish.Assemble | index.py:118-125 | a batch that converts gives one record per entry, each with its entry's envelope timestamp; a failing batch carries the error of one of its entries (the first one, by `Publish.AssembleFailsAtFirst`) |
| Publish.AssembleSucceeds | index.py:118-125 | the batch converts exactly when every entry does, giving one record per entry in batch order |
| Publish.AssembleFailsAtFirst | index.py:118-125 | a failing batch fails with the error of its first failing entry |
| Publish.BuildEvents | index.py:118-125 | the `try` loop computes `Assemble` |
| Publish.Records | index.py:130-135 | one sink entry per record, with the record's `epoch_ms` and JSON text |
| Publish.Invoke | index.py:115-150 | an invocation fails exactly when decoding or a conversion fails, and then calls nothing and keeps the token; otherwise any calls it makes are a stream creation exactly when no token is kept, followed by one put, the last call, carrying the kept token; a put replaces the kept token |
| Publish.Publication | index.py:127-150 | the run returns normally; no call is made exactly when there is no record, and then the token is kept; otherwise the calls are a stream creation exactly when no token is kept, then one put carrying the old token, and the service's answer becomes the kept token |
| Publish.PublicationPutsInTimeOrder | index.py:130-148 | the put sends exactly the records' entries, sorted by timestamp, to the handler's group and the context's stream |
| Publish.EmptyBatchPublishesNothing | index.py:127-128 | an empty batch makes no call and keeps the token |
| Publish.FailureIsAtomic | index.py:118-125 | an invocation fails exactly when decoding or some conversion fails; it then makes no call and keeps the token |
| Publish.PublishProtocol | index.py:137-150 | a non-empty batch gives one put of the time-ordered records; without a token the stream is created first and the put carries none; afterwards the kept token is the service's answer |
| Publish.TokenCarriesOver | index.py:137-150 | the second of two publishing invocations creates no stream and puts with the token the first one received |
| Publish.Handler.constructor | index.py:33-34 | the handler starts with the configured log group, no token and no calls |
| Publish.Handler.Handle | index.py:115-150 | outcome, kept token and calls made are those of `Invoke` on the old token |
| Publish.Handler.PublishRecords | index.py:127-150 | from the length test on, outcome, token and calls are those of `Publication` |
| Publish.Handler.PutBatch | index.py:137-150 | creates the stream when no token is kept, puts the events with the old token, and keeps the new token |

## Left out

- `decode` (base64, gzip and JSON) is not modelled; its result, or its failure, is the `decoded` parameter of `Handle`.
- `pt-fingerprint` is a separate process: only its exit code, stdout and stderr are modelled, through `Services.runFingerprint`, and byte decoding of its output is not modelled.
- MD5 is not modelled: `Services.md5` gives a 16-byte digest.
- `datetime.utcfromtimestamp`, `strftime` and `epoch_ms` are passed in as `Services.formatUtc` and `Services.epochMs`.
  - `epoch_ms` calls `timestamp()` on a naive datetime, and Python reads that datetime as local time. A record's time therefore need not be the envelope's instant unless the host runs in UTC. The model follows the code by leaving the value to `Services.epochMs`, and does not assume the envelope milliseconds come back unchanged.
- Floating-point values are not modelled:
  - `float()` is modelled by the syntax it accepts, and a float annotation keeps its literal;
  - its JSON text comes from `JsonLib.floatRepr`.
- JSON string escaping (`ensure_ascii`) is not modelled beyond `Json.KeepsPlainText`: `JsonLib.escape` is a parameter, and the record's literal member names rely on it leaving printable ASCII other than `"` and `\` unchanged, as `json.dumps` does. Integers are written in decimal (`Coercion.Show`).
- `\w` in `commentRe` is modelled on ASCII letters, digits and `_`. Non-ASCII word characters are not modelled.
- `int()` and `float()` are modelled on ASCII digits only: `Coercion.ParseInt` and `Coercion.IsFloatLiteral` reject text with non-ASCII decimal digits, which Python accepts.
- Coercion.IsFloatLiteral: its contract states only that blank text is rejected. The rest of `float()`'s grammar is given by its definition and has no separate proof.
- Coercion.ParseInt: Python refuses to convert text with more digits than its integer-string limit (4300 by default in recent versions). The model accepts any number of digits.
- Events.FromEvent: `datetime.utcfromtimestamp` (index.py:93) raises for a timestamp outside the supported date range. `Services.formatUtc` is total, so this failure is missing. The model computes the `_t` text here, although the source formats it with `strftime` in `LogEvent.json()` (index.py:102, called at 133); `strftime` does not fail on a datetime `utcfromtimestamp` produced, so the move changes no outcome.
- Events.FromEvent: when `pt-fingerprint` cannot be started, `subprocess.run` (index.py:72) raises `OSError`, not `FingerprintError`. `Services.runFingerprint` always returns a result, so this failure is missing.
- Publish.Records: `epoch_ms` calls `timestamp()` (index.py:112, called at 132), outside the `try`, and that call can raise for a time the platform cannot convert from local time. `Services.epochMs` is total, so this failure is missing.
- Publish.FailureIsAtomic: "fails exactly when decoding or some conversion fails" holds for the failures modelled here. The range error of `utcfromtimestamp`, the `OSError` of `subprocess.run` and the failure of `timestamp()` also end the run in the source, before any call to the log service, and they are not modelled.
- `SlowLog.Parse`: a conversion failure is `CoercionError` without the offending value, because the value in Python's message depends on dict iteration order.
- Errors from the log service are not modelled (no failing `create_log_stream` or `put_log_events`). Neither are its limits on batch size or time span.
- Logging of the failed event, the environment lookup of `LOG_GROUP` (a constructor parameter) and the boto3 client are not modelled.
- Concurrent invocations sharing `log_seq_token` are not modelled.
