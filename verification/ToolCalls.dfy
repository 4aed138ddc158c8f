/** Accumulating streamed tool calls until each one is complete. */
module ToolCalls {
  import opened Wrappers
  import opened Sorting
  import Json
  import JsonRepair

  /** Which stream a delta belongs to. Keys order by index, the unindexed stream last. */
  datatype Key = Indexed(index: nat) | Unindexed

  predicate KeyLe(a: Key, b: Key) {
    b.Unindexed? || (a.Indexed? && a.index <= b.index)
  }

  /** The JSON reader and writer the accumulator is given. */
  datatype Codec = Codec(parse: string -> Option<Json.Value>, render: Json.Value -> string)

  datatype Pending = Pending(id: string, name: string, raw: string, earlyDetected: bool)

  const NEW_PENDING := Pending("", "", "", false)

  datatype Finalized = Finalized(id: string, name: string, raw: string, arguments: Json.Value,
                                 isError: bool, recovered: bool)

  datatype Detected = Detected(id: string, name: string)

  datatype ParamsChunk = ParamsChunk(id: string, name: string, params: string)

  datatype Outcome = Outcome(finalizedPrevious: Option<Finalized>, earlyDetected: Option<Detected>,
                             paramsPartial: Option<ParamsChunk>)

  datatype Delta =
    Delta(key: Key, id: Option<string>, name: Option<string>, arguments: Option<string>, isSnapshot: bool)

  predicate WriteLike(name: string) {
    name == "Write" || name == "file_write" || name == "write_notebook"
  }

  predicate SafeToRecover(name: string) {
    WriteLike(name) || name == "AskUserQuestion" || name == "TodoWrite"
  }

  const EMPTY_OBJECT := Json.Object(map[])

  /** A file body must not travel inside a tool call when its content follows separately. */
  function StripContent(arguments: Json.Value): Json.Value {
    if arguments.Object? then Json.Object(arguments.members - {"content", "contents"}) else arguments
  }

  /** The file path alone, written out, if there is one. */
  function PathOnly(codec: Codec, arguments: Json.Value): Option<string> {
    if arguments.Object? && "file_path" in arguments.members then
      Some(codec.render(Json.Object(map["file_path" := arguments.members["file_path"]])))
    else None
  }

  /** The arguments of a finished call: as parsed, as recovered from a cut-off text, or an error. */
  function Arguments(codec: Codec, name: string, raw: string): (Json.Value, bool, bool) {
    match codec.parse(raw)
    case Some(value) => (value, false, false)
    case None =>
      var repaired := match JsonRepair.Repair(raw) case Some(text) => codec.parse(text) case None => None;
      match repaired
      case Some(value) => if SafeToRecover(name) then (value, false, true) else (EMPTY_OBJECT, true, true)
      case None => (EMPTY_OBJECT, true, false)
  }

  /** The record of a finished call; a call that never got a name or arguments leaves none. */
  function Finish(codec: Codec, strip: bool, p: Pending): Option<Finalized> {
    if p.id == "" || (p.name == "" && p.raw == "") then None
    else
      var (arguments, isError, recovered) := Arguments(codec, p.name, p.raw);
      if strip && WriteLike(p.name) then
        var stripped := StripContent(arguments);
        var raw := match PathOnly(codec, stripped) case Some(text) => text case None => p.raw;
        Some(Finalized(p.id, p.name, raw, stripped, isError, recovered))
      else Some(Finalized(p.id, p.name, p.raw, arguments, isError, recovered))
  }

  function OrEmpty(s: Option<string>): string {
    match s case Some(text) => text case None => ""
  }

  /** The call a delta leaves pending on its key, and the one it completes. */
  function Adopt(codec: Codec, strip: bool, p: Pending, d: Delta): (Pending, Option<Finalized>) {
    if OrEmpty(d.id) != "" && p.id != d.id.value then
      (Pending(d.id.value, OrEmpty(d.name), "", false), Finish(codec, strip, p))
    else if p.name == "" then (p.(name := OrEmpty(d.name)), None)
    else (p, None)
  }

  predicate Announces(p: Pending) {
    p.id != "" && p.name != "" && !p.earlyDetected
  }

  function Extend(p: Pending, d: Delta): Pending {
    if p.id != "" && OrEmpty(d.arguments) != "" then
      p.(raw := if d.isSnapshot then d.arguments.value else p.raw + d.arguments.value)
    else p
  }

  /** The fragment shown while parameters stream in. */
  function ShownParams(codec: Codec, strip: bool, p: Pending, arguments: string): string {
    if strip && WriteLike(p.name) then
      match codec.parse(p.raw)
      case None => ""
      case Some(value) => OrEmpty(PathOnly(codec, StripContent(value)))
    else arguments
  }

  function Params(codec: Codec, strip: bool, p: Pending, d: Delta): Option<ParamsChunk> {
    if p.id != "" && OrEmpty(d.arguments) != "" then
      var shown := ShownParams(codec, strip, p, d.arguments.value);
      if shown != "" then Some(ParamsChunk(p.id, p.name, shown)) else None
    else None
  }

  /** The entry and outcome of one delta on an entry that exists or has just been made. */
  function Applied(codec: Codec, strip: bool, p: Pending, d: Delta): (Pending, Outcome) {
    var (adopted, finished) := Adopt(codec, strip, p, d);
    var early := if Announces(adopted) then Some(Detected(adopted.id, adopted.name)) else None;
    var announced := if Announces(adopted) then adopted.(earlyDetected := true) else adopted;
    var extended := Extend(announced, d);
    (extended, Outcome(finished, early, Params(codec, strip, extended, d)))
  }

  /** A pending call always has an id. */
  ghost predicate Identified(pending: map<Key, Pending>) {
    forall k :: k in pending ==> pending[k].id != ""
  }

  const NO_OUTCOME := Outcome(None, None, None)

  /** A delta without an id cannot open a key; every other delta updates the call on its key. */
  function DeltaOn(codec: Codec, strip: bool, pending: map<Key, Pending>, d: Delta): (map<Key, Pending>, Outcome) {
    if d.key !in pending && OrEmpty(d.id) == "" then (pending, NO_OUTCOME)
    else
      var (entry, outcome) := Applied(codec, strip, if d.key in pending then pending[d.key] else NEW_PENDING, d);
      (pending[d.key := entry], outcome)
  }

  class PendingToolCalls {
    const codec: Codec
    const strip: bool
    var pending: map<Key, Pending>

    constructor (codec: Codec, strip: bool)
      ensures this.codec == codec && this.strip == strip && pending == map[]
    {
      this.codec, this.strip, pending := codec, strip, map[];
    }

    method ApplyDelta(d: Delta) returns (outcome: Outcome)
      requires Identified(pending)
      modifies this
      ensures Identified(pending)
      ensures (pending, outcome) == DeltaOn(codec, strip, old(pending), d)
    {
      outcome := NO_OUTCOME;
      if d.key !in pending {
        if OrEmpty(d.id) == "" {
          return;
        }
        pending := pending[d.key := NEW_PENDING];
      }
      var entry := pending[d.key];
      var finished;
      entry, finished := AdoptDelta(codec, strip, entry, d);
      var early: Option<Detected> := None;
      if entry.id != "" && entry.name != "" && !entry.earlyDetected {
        early := Some(Detected(entry.id, entry.name));
        entry := entry.(earlyDetected := true);
      }
      var partial;
      entry, partial := ExtendArguments(codec, strip, entry, d);
      outcome := Outcome(finished, early, partial);
      pending := pending[d.key := entry];
      assert pending == old(pending)[d.key := entry];
    }

    /** Finishes the call pending on one key. */
    method FinalizeKey(key: Key) returns (record: Option<Finalized>)
      requires key in pending
      modifies this
      ensures pending == old(pending) - {key}
      ensures record == Finish(codec, strip, old(pending)[key])
    {
      var entry := pending[key];
      pending := pending - {key};
      record := Finish(codec, strip, entry);
    }

    /** Finishes every pending call in key order and leaves nothing pending. */
    method FinalizeAll() returns (finalized: seq<Finalized>, ghost keys: seq<Key>)
      requires Identified(pending)
      modifies this
      ensures pending == map[]
      ensures KeysOf(old(pending), keys)
      ensures finalized == FinishAll(codec, strip, old(pending), keys, |keys|)
    {
      var order := InKeyOrder(pending);
      keys := order;
      finalized := [];
      for i := 0 to |order|
        invariant Untouched(old(pending), pending, order, i)
        invariant finalized == FinishAll(codec, strip, old(pending), order, i)
      {
        UntouchedStep(old(pending), pending, order, i);
        var record := FinalizeKey(order[i]);
        finalized := finalized + Listed(record);
      }
    }
  }

  /** Lets a delta name its call: a new id finishes the previous call on the key. */
  method AdoptDelta(codec: Codec, strip: bool, p: Pending, d: Delta)
    returns (entry: Pending, finished: Option<Finalized>)
    ensures (entry, finished) == Adopt(codec, strip, p, d)
  {
    entry, finished := p, None;
    if OrEmpty(d.id) != "" {
      if entry.id != d.id.value {
        finished := Finish(codec, strip, entry);
        entry := Pending(d.id.value, OrEmpty(d.name), "", false);
      } else if entry.name == "" {
        entry := entry.(name := OrEmpty(d.name));
      }
    } else if OrEmpty(d.name) != "" {
      if entry.name == "" {
        entry := entry.(name := OrEmpty(d.name));
      }
    }
  }

  /** Appends or replaces the raw arguments and decides what to show of them. */
  method ExtendArguments(codec: Codec, strip: bool, p: Pending, d: Delta)
    returns (entry: Pending, partial: Option<ParamsChunk>)
    ensures entry == Extend(p, d) && partial == Params(codec, strip, entry, d)
  {
    entry, partial := p, None;
    if OrEmpty(d.arguments) != "" {
      if entry.id != "" {
        entry := entry.(raw := if d.isSnapshot then d.arguments.value else entry.raw + d.arguments.value);
        var shown := ShownParams(codec, strip, entry, d.arguments.value);
        if shown != "" {
          partial := Some(ParamsChunk(entry.id, entry.name, shown));
        }
      }
    }
  }

  /** Indexed keys stand by increasing index, the unindexed one behind them. */
  predicate StandsBefore(a: Key, b: Key) {
    a.Indexed? && (b.Indexed? ==> a.index < b.index)
  }

  /** `keys` lists the keys of `pending` once each, in order. */
  ghost predicate KeysOf(pending: map<Key, Pending>, keys: seq<Key>) {
    && (forall k :: k in keys <==> k in pending)
    && (forall i, j :: 0 <= i < j < |keys| ==> StandsBefore(keys[i], keys[j]))
  }

  /** Exactly the calls of the keys from `i` on are still pending, as they were. */
  ghost predicate Untouched(before: map<Key, Pending>, now: map<Key, Pending>, order: seq<Key>, i: nat) {
    && i <= |order|
    && (forall j :: i <= j < |order| ==> order[j] in now)
    && (forall j :: 0 <= j < i ==> order[j] !in now)
    && (forall k :: k in now ==> k in before && now[k] == before[k])
  }

  lemma UntouchedStep(before: map<Key, Pending>, now: map<Key, Pending>, order: seq<Key>, i: nat)
    requires KeysOf(before, order) && Untouched(before, now, order, i) && i < |order|
    ensures order[i] in now && now[order[i]] == before[order[i]]
    ensures Untouched(before, now - {order[i]}, order, i + 1)
  {
  }

  /** The records of the first `n` keys. */
  function FinishAll(codec: Codec, strip: bool, pending: map<Key, Pending>, keys: seq<Key>, n: nat): seq<Finalized>
    requires n <= |keys| && forall k :: k in keys ==> k in pending
  {
    if n == 0 then []
    else FinishAll(codec, strip, pending, keys, n - 1) + Listed(Finish(codec, strip, pending[keys[n - 1]]))
  }

  function Listed(record: Option<Finalized>): seq<Finalized> {
    match record case Some(r) => [r] case None => []
  }

  method InKeyOrder(pending: map<Key, Pending>) returns (keys: seq<Key>)
    ensures KeysOf(pending, keys)
  {
    keys := [];
    var todo := pending.Keys;
    KeyLeIsAnOrder();
    while todo != {}
      invariant todo <= pending.Keys
      invariant SortedBy(keys, KeyLe)
      invariant multiset(keys) == multiset(pending.Keys - todo)
      decreases todo
    {
      var key :| key in todo;
      InsertSorts(keys, key, KeyLe);
      InsertPermutes(keys, key, KeyLe);
      assert pending.Keys - (todo - {key}) == (pending.Keys - todo) + {key};
      keys := Insert(keys, key, KeyLe);
      todo := todo - {key};
    }
    assert pending.Keys - todo == pending.Keys;
    OnceEach(pending, keys);
  }

  lemma KeyLeIsAnOrder()
    ensures TotalOrder(KeyLe)
  {
  }

  lemma OnceEach(pending: map<Key, Pending>, keys: seq<Key>)
    requires SortedBy(keys, KeyLe) && multiset(keys) == multiset(pending.Keys)
    ensures KeysOf(pending, keys)
  {
    forall k ensures k in keys <==> k in pending {
      OnceListed(pending, keys, k);
    }
    forall i, j | 0 <= i < j < |keys| ensures StandsBefore(keys[i], keys[j]) {
      OnceInOrder(pending, keys, i, j);
    }
  }

  lemma OnceListed(pending: map<Key, Pending>, keys: seq<Key>, k: Key)
    requires multiset(keys) == multiset(pending.Keys)
    ensures k in keys <==> k in pending
  {
    assert k in keys <==> k in multiset(keys);
    assert k in pending.Keys <==> k in multiset(pending.Keys);
  }

  lemma OnceInOrder(pending: map<Key, Pending>, keys: seq<Key>, i: nat, j: nat)
    requires SortedBy(keys, KeyLe) && multiset(keys) == multiset(pending.Keys) && i < j < |keys|
    ensures StandsBefore(keys[i], keys[j])
  {
    assert KeyLe(keys[i], keys[j]);
    assert multiset(pending.Keys)[keys[i]] <= 1;
    if keys[i] == keys[j] {
      CountTwice(keys, i, j);
    }
  }

  // ---------- what a finished call is ----------

  /** Every record has an id, and a name or raw arguments came in for it. */
  lemma FinishedIsIdentified(codec: Codec, strip: bool, p: Pending)
    ensures Finish(codec, strip, p).Some? <==> p.id != "" && (p.name != "" || p.raw != "")
    ensures Finish(codec, strip, p).Some? ==> Finish(codec, strip, p).value.id == p.id
  {
  }

  lemma {:induction false} AllFinishedIdentified(codec: Codec, strip: bool, pending: map<Key, Pending>,
                                                 keys: seq<Key>, n: nat)
    requires Identified(pending) && n <= |keys| && forall k :: k in keys ==> k in pending
    ensures forall i :: 0 <= i < |FinishAll(codec, strip, pending, keys, n)| ==>
        FinishAll(codec, strip, pending, keys, n)[i].id != ""
  {
    if n > 0 {
      AllFinishedIdentified(codec, strip, pending, keys, n - 1);
      FinishedIsIdentified(codec, strip, pending[keys[n - 1]]);
    }
  }

  /**
   * With stripping on, a finished write never carries content in its arguments; its
   * raw text is reduced to the path exactly when the arguments name one.
   */
  lemma StrippedWriteCarriesNoContent(codec: Codec, p: Pending)
    requires Finish(codec, true, p).Some? && WriteLike(p.name)
    ensures var r := Finish(codec, true, p).value;
      && (r.arguments.Object? ==> "content" !in r.arguments.members && "contents" !in r.arguments.members)
      && r.raw == (match PathOnly(codec, r.arguments) case Some(text) => text case None => p.raw)
      && (PathOnly(codec, r.arguments).Some? <==> r.arguments.Object? && "file_path" in r.arguments.members)
  {
  }

  /** A call cut off right behind a backslash is never recovered unless the reader accepts an open string. */
  lemma RecoveredOnlyIfClosed(codec: Codec, strip: bool, p: Pending)
    requires forall text :: codec.parse(text).Some? ==> JsonRepair.Closed(JsonRepair.ScanText(text))
    requires Finish(codec, strip, p).Some? && Finish(codec, strip, p).value.recovered
    ensures JsonRepair.Repair(p.raw).Some? && !JsonRepair.ScanText(p.raw).escape
    ensures Finish(codec, strip, p).value.isError <==> !SafeToRecover(p.name)
  {
    JsonRepair.RepairClosesUnlessEscaped(p.raw);
  }

  /** A delta only ever completes an identified call. */
  lemma DeltaFinishesIdentified(codec: Codec, strip: bool, pending: map<Key, Pending>, d: Delta)
    requires Identified(pending)
    ensures var (_, outcome) := DeltaOn(codec, strip, pending, d);
      outcome.finalizedPrevious.Some? ==> outcome.finalizedPrevious.value.id != ""
  {
  }

  /** The calls a run of deltas on one key leaves pending. */
  function AfterDeltas(codec: Codec, strip: bool, p: Pending, ds: seq<Delta>): Pending
    decreases |ds|
  {
    if ds == [] then p else AfterDeltas(codec, strip, Applied(codec, strip, p, ds[0]).0, ds[1..])
  }

  /** Deltas that continue a call: they carry its id or none. */
  predicate Continues(p: Pending, ds: seq<Delta>) {
    forall i :: 0 <= i < |ds| ==> OrEmpty(ds[i].id) == "" || ds[i].id.value == p.id
  }

  /** The argument text of a run of deltas, starting over at every snapshot. */
  function Gathered(raw: string, ds: seq<Delta>): string
    decreases |ds|
  {
    if ds == [] then raw
    else
      var text := OrEmpty(ds[0].arguments);
      Gathered(if text == "" then raw else if ds[0].isSnapshot then text else raw + text, ds[1..])
  }

  /**
   * However its deltas are cut, a call keeps its id, gathers its argument text and is announced
   * once, when its name is known.
   */
  lemma {:induction false} DeltasGather(codec: Codec, strip: bool, p: Pending, ds: seq<Delta>)
    requires p.id != "" && (p.earlyDetected <==> p.name != "") && Continues(p, ds)
    ensures var q := AfterDeltas(codec, strip, p, ds);
      && q.id == p.id
      && q.raw == Gathered(p.raw, ds)
      && (q.earlyDetected <==> q.name != "")
      && (p.name != "" ==> q.name == p.name)
    decreases |ds|
  {
    if ds != [] {
      DeltasGather(codec, strip, Applied(codec, strip, p, ds[0]).0, ds[1..]);
    }
  }

  // ---------- what a stripped write shows and keeps ----------

  function PathText(codec: Codec, path: Json.Value): string {
    codec.render(Json.Object(map["file_path" := path]))
  }

  /** The text names a file path and nothing else. */
  ghost predicate PathOnlyText(codec: Codec, text: string) {
    exists path {:trigger PathText(codec, path)} :: text == PathText(codec, path)
  }

  predicate NamesPath(arguments: Json.Value) {
    arguments.Object? && "file_path" in arguments.members
  }

  /** Parameters shown for a call that has a write's name are its file path. */
  lemma NamedWriteShowsPathOnly(codec: Codec, p: Pending, d: Delta)
    requires var (entry, outcome) := Applied(codec, true, p, d);
             outcome.paramsPartial.Some? && WriteLike(entry.name)
    ensures PathOnlyText(codec, Applied(codec, true, p, d).1.paramsPartial.value.params)
  {
    var (entry, outcome) := Applied(codec, true, p, d);
    var value := StripContent(codec.parse(entry.raw).value);
    assert outcome.paramsPartial.value.params == PathText(codec, value.members["file_path"]);
  }

  /** Delta `i` of a call, with stripping on, shows parameters that are more than a file path. */
  ghost predicate ShowsContentAt(codec: Codec, p: Pending, ds: seq<Delta>, i: nat)
    requires i < |ds|
    decreases i
  {
    var (entry, outcome) := Applied(codec, true, p, ds[0]);
    if i == 0 then outcome.paramsPartial.Some? && !PathOnlyText(codec, outcome.paramsPartial.value.params)
    else ShowsContentAt(codec, entry, ds[1..], i - 1)
  }

  ghost predicate ShowsContent(codec: Codec, p: Pending, ds: seq<Delta>) {
    exists i: nat {:trigger ShowsContentAt(codec, p, ds, i)} :: i < |ds| && ShowsContentAt(codec, p, ds, i)
  }

  /** Delta `i` carries arguments that are more than a file path, and no name has come by then. */
  ghost predicate NamelessContentAt(codec: Codec, name: string, ds: seq<Delta>, i: nat)
    requires i < |ds|
  {
    && OrEmpty(ds[i].arguments) != "" && !PathOnlyText(codec, ds[i].arguments.value)
    && name == "" && forall j :: 0 <= j <= i ==> OrEmpty(ds[j].name) == ""
  }

  ghost predicate NamelessContent(codec: Codec, name: string, ds: seq<Delta>) {
    exists i: nat {:trigger NamelessContentAt(codec, name, ds, i)} :: i < |ds| && NamelessContentAt(codec, name, ds, i)
  }

  /** The first delta shows more than a path exactly if it is more, with no name known. */
  lemma FirstContentShownIff(codec: Codec, p: Pending, ds: seq<Delta>)
    requires p.id != "" && (p.earlyDetected <==> p.name != "") && Continues(p, ds) && ds != []
    requires WriteLike(AfterDeltas(codec, true, p, ds).name)
    ensures ShowsContentAt(codec, p, ds, 0) <==> NamelessContentAt(codec, p.name, ds, 0)
  {
    var (entry, outcome) := Applied(codec, true, p, ds[0]);
    DeltasGather(codec, true, entry, ds[1..]);
    if outcome.paramsPartial.Some? && entry.name != "" {
      NamedWriteShowsPathOnly(codec, p, ds[0]);
    }
  }

  /** A later delta is nameless content exactly if it is so after the first, and the first has no name either. */
  lemma NamelessLater(codec: Codec, name: string, ds: seq<Delta>, i: nat)
    requires 0 < i < |ds|
    ensures NamelessContentAt(codec, name, ds, i) <==>
              NamelessContentAt(codec, if name == "" then OrEmpty(ds[0].name) else name, ds[1..], i - 1)
  {
    var rest := ds[1..];
    assert forall j :: 0 <= j < i ==> rest[j] == ds[j + 1];
    if name == "" && OrEmpty(ds[0].name) == "" && forall j :: 0 <= j <= i - 1 ==> OrEmpty(rest[j].name) == "" {
      forall j | 0 <= j <= i ensures OrEmpty(ds[j].name) == "" {
        assert j > 0 ==> ds[j] == rest[j - 1];
      }
    }
  }

  lemma {:induction false} ContentShownAtIff(codec: Codec, p: Pending, ds: seq<Delta>, i: nat)
    requires p.id != "" && (p.earlyDetected <==> p.name != "") && Continues(p, ds) && i < |ds|
    requires WriteLike(AfterDeltas(codec, true, p, ds).name)
    ensures ShowsContentAt(codec, p, ds, i) <==> NamelessContentAt(codec, p.name, ds, i)
    decreases i
  {
    if i == 0 {
      FirstContentShownIff(codec, p, ds);
    } else {
      var entry := Applied(codec, true, p, ds[0]).0;
      ContentShownAtIff(codec, entry, ds[1..], i - 1);
      NamelessLater(codec, p.name, ds, i);
    }
  }

  /**
   * A call that turns out to be a write has shown more than its file path, though
   * stripping was on, if and only if arguments that are more came before its name.
   */
  lemma ContentShownIff(codec: Codec, p: Pending, ds: seq<Delta>)
    requires p.id != "" && (p.earlyDetected <==> p.name != "") && Continues(p, ds)
    requires WriteLike(AfterDeltas(codec, true, p, ds).name)
    ensures ShowsContent(codec, p, ds) <==> NamelessContent(codec, p.name, ds)
  {
    if ShowsContent(codec, p, ds) {
      var i: nat :| i < |ds| && ShowsContentAt(codec, p, ds, i);
      ContentShownAtIff(codec, p, ds, i);
    }
    if NamelessContent(codec, p.name, ds) {
      var i: nat :| i < |ds| && NamelessContentAt(codec, p.name, ds, i);
      ContentShownAtIff(codec, p, ds, i);
    }
  }

  /**
   * The record of such a call keeps more than its file path as its text if and only if
   * the arguments name no file and more than a path has been gathered.
   */
  lemma ContentKeptIff(codec: Codec, p: Pending, ds: seq<Delta>)
    requires p.id != "" && (p.earlyDetected <==> p.name != "") && Continues(p, ds)
    requires WriteLike(AfterDeltas(codec, true, p, ds).name)
    ensures var r := Finish(codec, true, AfterDeltas(codec, true, p, ds));
      && r.Some?
      && (!PathOnlyText(codec, r.value.raw) <==>
           !NamesPath(r.value.arguments) && !PathOnlyText(codec, Gathered(p.raw, ds)))
  {
    DeltasGather(codec, true, p, ds);
    var q := AfterDeltas(codec, true, p, ds);
    StrippedWriteCarriesNoContent(codec, q);
    var r := Finish(codec, true, q).value;
    if NamesPath(r.arguments) {
      assert r.raw == PathText(codec, r.arguments.members["file_path"]);
    }
  }

  const NO_FILE := "{\"content\":\"body\"}"

  /** A write without a file path: its arguments lose the body, its text keeps it. */
  lemma RecordCanKeepContent(codec: Codec)
    requires codec.parse(NO_FILE) == Some(Json.Object(map["content" := Json.String("body")]))
    ensures Finish(codec, true, Pending("call_1", "Write", NO_FILE, true))
         == Some(Finalized("call_1", "Write", NO_FILE, EMPTY_OBJECT, false, false))
  {
    assert map["content" := Json.String("body")] - {"content", "contents"} == map[];
  }
}
