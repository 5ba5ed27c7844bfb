/** Aircraft liveries: the hourly job that caches them (internal/jobs/liveries/job.go) and the memo
    through which one flights run reads them (internal/jobs/flights/job.go, lookupLivery). */
module Liveries {
  import opened Sequences
  import opened Keys
  import opened GameData
  import opened Cache

  type Memo = map<string, Livery>

  /** Go's zero Livery, which the memo stores for a failed or missed read. */
  const NO_LIVERY := Livery("", "", "", "")

  function ReadLivery(entries: Entries, faults: Faults, id: string): Read<Livery> {
    DecodeLivery(ReadFrom(entries, faults, LiveryKey(id)))
  }

  /** A failed read counts as a miss. */
  function Direct(r: Read<Livery>): Option<Livery> {
    match r
    case Hit(livery) => Some(livery)
    case _ => None
  }

  /** One lookup: its answer, the memo it leaves, and whether it went to the cache. */
  datatype Recalled = Recalled(answer: Option<Livery>, memo: Memo, readCache: bool)

  function Recall(memo: Memo, r: Read<Livery>, id: string): Recalled {
    if id == "" then Recalled(None, memo, false)
    else if id in memo then Recalled(if memo[id].id == "" then None else Some(memo[id]), memo, false)
    else match r
      case Hit(livery) => Recalled(Some(livery), memo[id := livery], true)
      case _ => Recalled(None, memo[id := NO_LIVERY], true)
  }

  /** The memo of one run; shared and updated by all lookups of that run. */
  class RunMemo {
    var known: Memo

    constructor ()
      ensures known == map[]
    {
      known := map[];
    }

    method LookupLivery(store: Store, id: string) returns (livery: Option<Livery>)
      modifies this`known
      ensures var l := Recall(old(known), ReadLivery(store.entries, store.faults, id), id);
              livery == l.answer && known == l.memo
    {
      if id == "" {
        return None;
      }
      if id in known {
        if known[id].id == "" {
          return None;
        }
        return Some(known[id]);
      }
      var r := store.GetJSON(LiveryKey(id));
      match DecodeLivery(r) {
        case Hit(found) =>
          known := known[id := found];
          return Some(found);
        case _ =>
          known := known[id := NO_LIVERY];
          return None;
      }
    }
  }

  // ----- The memo against direct reads

  /** One lookup of a run: the ID asked for, and the cache and network at that instant. */
  datatype Ask = Ask(id: string, entries: Entries, faults: Faults) {
    function Reads(): Read<Livery> { ReadLivery(entries, faults, id) }

    /** What a lookup without the memo would answer. */
    function Directly(): Option<Livery> { Direct(Reads()) }
  }

  /** A direct read answers with the livery under that ID, when the read gets through and finds one. */
  lemma DirectlyMeans(ask: Ask)
    ensures ask.Directly().Some? <==>
              && LiveryKey(ask.id) !in ask.faults.failedReads && LiveryKey(ask.id) in ask.entries
              && ask.entries[LiveryKey(ask.id)].LiveryValue?
    ensures ask.Directly().Some? ==> ask.entries[LiveryKey(ask.id)] == LiveryValue(ask.Directly().value)
  {
  }

  /** The memo after these lookups of a run. */
  function MemoAfter(asked: seq<Ask>): Memo {
    if asked == [] then map[]
    else
      var last := asked[|asked| - 1];
      Recall(MemoAfter(asked[..|asked| - 1]), last.Reads(), last.id).memo
  }

  function NthLookup(asked: seq<Ask>, k: nat): Recalled
    requires k < |asked|
  {
    Recall(MemoAfter(asked[..k]), asked[k].Reads(), asked[k].id)
  }

  /** Lookup `j` is the first one of the ID that lookup `k` asks for. */
  ghost predicate FirstOf(asked: seq<Ask>, j: nat, k: nat) {
    j <= k < |asked| && asked[j].id == asked[k].id && forall i :: 0 <= i < j ==> asked[i].id != asked[j].id
  }

  function FirstAsk(asked: seq<Ask>, id: string): Option<Ask> {
    if asked == [] then None
    else
      var before, last := FirstAsk(asked[..|asked| - 1], id), asked[|asked| - 1];
      if before.Some? then before else if last.id == id then Some(last) else None
  }

  lemma {:induction false} FirstAskIs(asked: seq<Ask>, id: string, j: nat)
    requires forall i :: 0 <= i < j && i < |asked| ==> asked[i].id != id
    requires j < |asked| ==> asked[j].id == id
    ensures FirstAsk(asked, id) == if j < |asked| then Some(asked[j]) else None
  {
    if asked != [] {
      FirstAskIs(asked[..|asked| - 1], id, j);
    }
  }

  function Remembered(read: Option<Livery>): Livery {
    if read.Some? then read.value else NO_LIVERY
  }

  /** The memo knows exactly the IDs asked for, each with its first direct read. */
  lemma {:induction false} MemoHolds(asked: seq<Ask>, id: string)
    ensures var memo, first := MemoAfter(asked), FirstAsk(asked, id);
            && (id in memo <==> id != "" && first.Some?)
            && (id in memo ==> memo[id] == Remembered(first.value.Directly()))
  {
    if asked != [] {
      MemoHolds(asked[..|asked| - 1], id);
    }
  }

  /** Every lookup of a run answers what the first direct read of that ID answered, misses included,
      and only that first lookup reads the cache -- except, exactly, a repeated lookup of an entry
      whose own ID field is empty, which the memo cannot tell from a miss. */
  lemma LookupsRepeatFirstRead(asked: seq<Ask>, j: nat, k: nat)
    requires FirstOf(asked, j, k) && asked[k].id != ""
    ensures NthLookup(asked, k).readCache <==> j == k
    ensures NthLookup(asked, k).answer == asked[j].Directly() <==>
            j == k || asked[j].Directly().None? || asked[j].Directly().value.id != ""
  {
    MemoHolds(asked[..k], asked[k].id);
    FirstAskIs(asked[..k], asked[k].id, j);
  }

  /** What the liveries job keeps true of the cache: each livery stands under its own ID. */
  ghost predicate OwnIDs(entries: Entries) {
    forall id :: LiveryKey(id) in entries ==>
      entries[LiveryKey(id)].LiveryValue? && entries[LiveryKey(id)].livery.id == id
  }

  /** Over a cache the liveries job filled, the memo refines direct reads without exception. */
  lemma MemoRefinesDirectReads(asked: seq<Ask>, j: nat, k: nat)
    requires FirstOf(asked, j, k) && asked[k].id != ""
    requires OwnIDs(asked[j].entries)
    ensures NthLookup(asked, k).answer == asked[j].Directly()
    ensures NthLookup(asked, k).readCache <==> j == k
  {
    LookupsRepeatFirstRead(asked, j, k);
  }

  // ----- The liveries job

  function CacheLiveries(entries: Entries, faults: Faults, upstream: seq<Livery>): Entries {
    if upstream == [] then entries
    else
      var last := upstream[|upstream| - 1];
      WriteTo(CacheLiveries(entries, faults, upstream[..|upstream| - 1]), faults, LiveryKey(last.id), LiveryValue(last))
  }

  lemma {:induction false} CacheLiveriesKeepsOwnIDs(entries: Entries, faults: Faults, upstream: seq<Livery>)
    requires OwnIDs(entries)
    ensures OwnIDs(CacheLiveries(entries, faults, upstream))
  {
    if upstream != [] {
      CacheLiveriesKeepsOwnIDs(entries, faults, upstream[..|upstream| - 1]);
    }
  }

  /** Afterwards each livery whose write got through stands under its ID, the last one of it if upstream
      lists several, and nothing else has changed. */
  lemma {:induction false} CachedLiveries(entries: Entries, faults: Faults, upstream: seq<Livery>, key: CacheKey)
    ensures var after := CacheLiveries(entries, faults, upstream);
            (key in after <==> key in entries || (Writes(upstream, key) && key !in faults.lostWrites))
            && (key in after ==>
                  if Writes(upstream, key) && key !in faults.lostWrites
                  then exists i: nat :: LastWrite(upstream, key, i) && after[key] == LiveryValue(upstream[i])
                  else after[key] == entries[key])
  {
    if upstream != [] {
      var init, last := upstream[..|upstream| - 1], upstream[|upstream| - 1];
      CachedLiveries(entries, faults, init, key);
      assert upstream == init + [last];
      if key == LiveryKey(last.id) {
        assert LastWrite(upstream, key, |upstream| - 1);
      } else if Writes(upstream, key) && key !in faults.lostWrites {
        var i: nat :| LastWrite(init, key, i) && CacheLiveries(entries, faults, init)[key] == LiveryValue(init[i]);
        assert LastWrite(upstream, key, i);
      }
    }
  }

  /** Some livery of the list has this key. */
  predicate Writes(upstream: seq<Livery>, key: CacheKey) {
    exists l :: l in upstream && key == LiveryKey(l.id)
  }

  predicate LastWrite(upstream: seq<Livery>, key: CacheKey, i: nat) {
    i < |upstream| && key == LiveryKey(upstream[i].id) && forall j :: i < j < |upstream| ==> key != LiveryKey(upstream[j].id)
  }

  /** Writes the liveries in order and stops at the first write that reports an error, leaving the
      earlier ones in place. */
  method Run(store: Store, upstream: Option<seq<Livery>>) returns (ok: bool)
    modifies store`entries
    ensures upstream.None? ==> !ok && store.entries == old(store.entries)
    ensures ok ==> upstream.Some? && store.entries == CacheLiveries(old(store.entries), store.faults, upstream.value)
                   && forall l :: l in upstream.value ==> Acknowledged(store.faults, LiveryKey(l.id))
    ensures upstream.Some? && !ok ==>
              exists n: nat :: n < |upstream.value|
                && store.entries == CacheLiveries(old(store.entries), store.faults, upstream.value[..n + 1])
                && !Acknowledged(store.faults, LiveryKey(upstream.value[n].id))
    ensures OwnIDs(old(store.entries)) ==> OwnIDs(store.entries)
  {
    if upstream.None? {
      return false;
    }
    var items := upstream.value;
    for i := 0 to |items|
      invariant store.entries == CacheLiveries(old(store.entries), store.faults, items[..i])
      invariant forall l :: l in items[..i] ==> Acknowledged(store.faults, LiveryKey(l.id))
      invariant OwnIDs(old(store.entries)) ==> OwnIDs(store.entries)
    {
      assert items[..i + 1][..i] == items[..i];
      var stored := store.SetJSON(LiveryKey(items[i].id), LiveryValue(items[i]));
      if !stored {
        return false;
      }
    }
    assert items[..|items|] == items;
    return true;
  }
}
