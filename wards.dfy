/** The batch refresh of Tokyo's 23 special wards (`fetchAllWards`,
    src/WeatherMap.js:1425-1505): every ward is served from a ten-minute cache
    kept in local storage or fetched through the resolver, and the per-ward
    updates are applied to the displayed list in batches. */
module Wards {
  import opened Wrappers
  import opened Records

  datatype Ward = Ward(id: string, name: string, lat: real, lon: real)

  /** `WARDS_23`. */
  const Wards23: seq<Ward> := [
    Ward("chiyoda", "千代田区", 35.6938, 139.7530),
    Ward("chuo", "中央区", 35.6704, 139.7720),
    Ward("minato", "港区", 35.6581, 139.7516),
    Ward("shinjuku", "新宿区", 35.6938, 139.7036),
    Ward("shibuya", "渋谷区", 35.6595, 139.7004),
    Ward("meguro", "目黒区", 35.6416, 139.6982),
    Ward("bunkyo", "文京区", 35.7081, 139.7528),
    Ward("taito", "台東区", 35.7126, 139.7848),
    Ward("sumida", "墨田区", 35.7101, 139.7976),
    Ward("koto", "江東区", 35.6690, 139.8170),
    Ward("edogawa", "江戸川区", 35.6780, 139.8550),
    Ward("adachi", "足立区", 35.7760, 139.7940),
    Ward("katsushika", "葛飾区", 35.7360, 139.8470),
    Ward("itabashi", "板橋区", 35.7520, 139.7060),
    Ward("kita", "北区", 35.7520, 139.7360),
    Ward("nakano", "中野区", 35.7060, 139.6650),
    Ward("nerima", "練馬区", 35.7350, 139.6520),
    Ward("ota", "大田区", 35.5610, 139.7160),
    Ward("setagaya", "世田谷区", 35.6469, 139.6530),
    Ward("shinagawa", "品川区", 35.6190, 139.7390),
    Ward("suginami", "杉並区", 35.7042, 139.6370),
    Ward("toshima", "豊島区", 35.7320, 139.7150),
    Ward("arakawa", "荒川区", 35.7375, 139.7895)
  ]

  predicate DistinctWardIds(wards: seq<Ward>) {
    forall i, j :: 0 <= i < j < |wards| ==> wards[i].id != wards[j].id
  }

  /** `status`: 'idle', 'loading', 'done' or 'error'. */
  datatype Status = Idle | Loading | Done | Failed

  /** One row of `wardWeatherList`; `raw` and `source` start as `null`, and
      `city` is absent until a record is merged in. */
  datatype WardEntry = WardEntry(
    id: string,
    name: string,
    lat: real,
    lon: real,
    status: Status,
    city: Option<string>,
    weatherArray: seq<Condition>,
    main: Measurements,
    raw: Option<Raw>,
    source: Option<Source>)

  predicate DistinctIds(list: seq<WardEntry>) {
    forall i, j :: 0 <= i < j < |list| ==> list[i].id != list[j].id
  }

  function InitialEntry(w: Ward): WardEntry {
    WardEntry(w.id, w.name, w.lat, w.lon, Idle, None, [], NoMeasurements, None, None)
  }

  /** The list every run starts from: one idle row per ward, in order. */
  function InitialList(wards: seq<Ward>): (list: seq<WardEntry>)
    ensures |list| == |wards|
    ensures forall k :: 0 <= k < |wards| ==> list[k] == InitialEntry(wards[k])
  {
    seq(|wards|, k requires 0 <= k < |wards| => InitialEntry(wards[k]))
  }

  /** The `data` of an update: the fields it spreads over the row. */
  datatype Patch = Patch(
    id: Option<string>,
    name: Option<string>,
    lat: Option<real>,
    lon: Option<real>,
    status: Option<Status>,
    city: Option<string>,
    weatherArray: Option<seq<Condition>>,
    main: Option<Measurements>,
    raw: Option<Raw>,
    source: Option<Source>)

  datatype Update = Update(id: string, data: Patch)

  /** `{ ...row, ...data }`. */
  function Merge(e: WardEntry, p: Patch): (m: WardEntry)
    ensures p.id.None? ==> m.id == e.id
    ensures p.status.Some? ==> m.status == p.status.value
    ensures p.status.None? ==> m.status == e.status
  {
    WardEntry(
      p.id.GetOr(e.id), p.name.GetOr(e.name), p.lat.GetOr(e.lat), p.lon.GetOr(e.lon),
      p.status.GetOr(e.status),
      if p.city.Some? then p.city else e.city,
      p.weatherArray.GetOr(e.weatherArray), p.main.GetOr(e.main),
      if p.raw.Some? then p.raw else e.raw,
      if p.source.Some? then p.source else e.source)
  }

  /** `{ status }`. */
  function StatusPatch(s: Status): Patch {
    Patch(None, None, None, None, Some(s), None, None, None, None, None)
  }

  /** `{ status: 'error', raw: { error: String(e) } }`. */
  function ErrorPatch(message: string): Patch {
    Patch(None, None, None, None, Some(Failed), None, None, None, Some(RawError(message)), None)
  }

  /** What the cache stores for a ward: `{ ...record, id, name }`. */
  datatype CachedWard = CachedWard(record: WeatherRecord, id: string, name: string)

  /** `{ ...entry, status: 'done' }`: every field of the row is set. */
  function DonePatch(c: CachedWard): Patch {
    Patch(Some(c.id), Some(c.name), Some(c.record.lat), Some(c.record.lon), Some(Done),
          Some(c.record.city), Some(c.record.weatherArray), Some(c.record.main),
          Some(c.record.raw), Some(c.record.source))
  }

  /** The row a done update leaves, whatever the row was before. */
  function EntryOf(c: CachedWard): WardEntry {
    WardEntry(c.id, c.name, c.record.lat, c.record.lon, Done, Some(c.record.city),
              c.record.weatherArray, c.record.main, Some(c.record.raw), Some(c.record.source))
  }

  lemma DonePatchOverwrites(e: WardEntry, c: CachedWard)
    ensures Merge(e, DonePatch(c)) == EntryOf(c)
  {
  }

  /** `list.findIndex(p => p.id === id)`: the first row with that id, or -1. */
  function FindIndex(list: seq<WardEntry>, id: string): (idx: int)
    ensures -1 <= idx < |list|
  {
    if |list| == 0 then -1
    else if list[0].id == id then 0
    else
      var rest := FindIndex(list[1..], id);
      if rest == -1 then -1 else rest + 1
  }

  /** `findIndex` answers -1 exactly when no row has the id, and otherwise
      the first row that has it. */
  lemma {:induction false} FindIndexFindsFirst(list: seq<WardEntry>, id: string)
    ensures FindIndex(list, id) == -1 <==> forall k :: 0 <= k < |list| ==> list[k].id != id
    ensures FindIndex(list, id) >= 0 ==>
              list[FindIndex(list, id)].id == id &&
              forall k :: 0 <= k < FindIndex(list, id) ==> list[k].id != id
  {
    if |list| > 0 && list[0].id != id {
      FindIndexFindsFirst(list[1..], id);
      assert forall k :: 1 <= k < |list| ==> list[k] == list[1..][k - 1];
    }
  }

  /** One update of a flush: merged into the first row with its id, if any. */
  function ApplyUpdate(list: seq<WardEntry>, u: Update): seq<WardEntry> {
    var idx := FindIndex(list, u.id);
    if idx == -1 then list else list[idx := Merge(list[idx], u.data)]
  }

  /** The updates applied one after another, in the order they were pushed. */
  function ApplyAll(list: seq<WardEntry>, us: seq<Update>): (r: seq<WardEntry>)
    ensures |r| == |list|
  {
    if |us| == 0 then list
    else ApplyUpdate(ApplyAll(list, us[..|us| - 1]), us[|us| - 1])
  }

  /** The batches of a run, joined. */
  function Flatten(batches: seq<seq<Update>>): seq<Update> {
    if |batches| == 0 then []
    else Flatten(batches[..|batches| - 1]) + batches[|batches| - 1]
  }

  lemma FlattenSnoc(batches: seq<seq<Update>>, b: seq<Update>)
    ensures Flatten(batches + [b]) == Flatten(batches) + b
  {
    assert (batches + [b])[..|batches|] == batches;
  }

  /** Every batch holds at least five updates. */
  predicate Full(batches: seq<seq<Update>>) {
    forall i :: 0 <= i < |batches| ==> |batches[i]| >= 5
  }

  /** The shape of the flushes: no batch is empty, and every batch but the
      last holds at least five updates. */
  predicate Batched(batches: seq<seq<Update>>) {
    (forall i :: 0 <= i < |batches| ==> |batches[i]| > 0) &&
    (forall i :: 0 <= i < |batches| - 1 ==> |batches[i]| >= 5)
  }

  lemma FullThenLast(full: seq<seq<Update>>, last: seq<Update>)
    requires Full(full) && |last| > 0
    ensures Batched(full + [last])
  {
    assert forall i :: 0 <= i < |full| ==> (full + [last])[i] == full[i];
  }

  /** Applying two runs of updates in turn is applying their concatenation:
      flushing in batches ends where one flush of everything would. */
  lemma {:induction false} ApplyAllConcat(list: seq<WardEntry>, a: seq<Update>, b: seq<Update>)
    ensures ApplyAll(ApplyAll(list, a), b) == ApplyAll(list, a + b)
    decreases |b|
  {
    if |b| == 0 {
      assert a + b == a;
    } else {
      var b' := b[..|b| - 1];
      assert (a + b)[..|a + b| - 1] == a + b';
      assert (a + b)[|a + b| - 1] == b[|b| - 1];
      ApplyAllConcat(list, a, b');
    }
  }

  // --- The cache ---------------------------------------------------------------

  datatype CacheEntry = CacheEntry(ts: int, data: CachedWard)

  /** `wardsWeatherCache`, keyed by ward id. */
  type Cache = map<string, CacheEntry>

  /** The local-storage item: missing (or empty), not JSON, or a saved cache. */
  datatype Stored = Absent | Unparseable | Saved(cache: Cache)

  /** `loadCache`: `{}` unless a cache was saved. */
  function LoadCache(s: Stored): (c: Cache)
    ensures s.Saved? ==> c == s.cache
    ensures !s.Saved? ==> c == map[]
  {
    if s.Saved? then s.cache else map[]
  }

  /** `CACHE_TTL`: ten minutes, in milliseconds. */
  const CacheTtlMs: int := 10 * 60 * 1000

  /** A cache hit: an entry younger than the TTL (strictly). */
  predicate Fresh(cache: Cache, id: string, now: int) {
    id in cache && now - cache[id].ts < CacheTtlMs
  }

  /** A cache written by this code keeps each ward under its own id. */
  predicate Consistent(cache: Cache) {
    forall k :: k in cache ==> cache[k].data.id == k
  }

  lemma FreshBoundary(cache: Cache, id: string, now: int)
    requires id in cache
    ensures Fresh(cache, id, now) <==> now < cache[id].ts + 600000
    ensures !Fresh(cache, id, cache[id].ts + 600000)
  {
  }

  /** What the resolver did for a ward that missed the cache: it returned a
      record, at time `ts` when the cache entry is written, or it threw. */
  datatype FetchOutcome = Fetched(record: WeatherRecord, ts: int) | Threw(message: string)

  datatype StepResult = StepResult(updates: seq<Update>, cache: Cache, wrote: bool)

  /** One iteration of the ward loop, checked against the cache at `now`. */
  function WardStep(w: Ward, cache: Cache, now: int, outcome: FetchOutcome): (st: StepResult)
    ensures forall u :: u in st.updates ==> u.id == w.id
    ensures Fresh(cache, w.id, now) ==>
              st == StepResult([Update(w.id, DonePatch(cache[w.id].data))], cache, false)
    ensures !Fresh(cache, w.id, now) ==>
              |st.updates| == 2 && st.updates[0].data == StatusPatch(Loading) &&
              st.updates[1].data.status == Some(if outcome.Fetched? then Done else Failed)
    ensures st.wrote <==> !Fresh(cache, w.id, now) && outcome.Fetched?
    ensures st.wrote ==> st.cache == cache[w.id := CacheEntry(outcome.ts, CachedWard(outcome.record, w.id, w.name))]
    ensures !st.wrote ==> st.cache == cache
    ensures Consistent(cache) ==> Consistent(st.cache)
  {
    if Fresh(cache, w.id, now) then
      StepResult([Update(w.id, DonePatch(cache[w.id].data))], cache, false)
    else
      match outcome
      case Fetched(record, ts) =>
        var entry := CachedWard(record, w.id, w.name);
        StepResult([Update(w.id, StatusPatch(Loading)), Update(w.id, DonePatch(entry))],
                   cache[w.id := CacheEntry(ts, entry)], true)
      case Threw(message) =>
        StepResult([Update(w.id, StatusPatch(Loading)), Update(w.id, ErrorPatch(message))], cache, false)
  }

  /** The first `k` iterations of the loop: the updates pushed, the cache, and
      whether the cache was saved. */
  function Run(wards: seq<Ward>, cache0: Cache, nows: seq<int>, outcomes: seq<FetchOutcome>, k: nat): (r: StepResult)
    requires k <= |wards| && |nows| == |wards| && |outcomes| == |wards|
    ensures Consistent(cache0) ==> Consistent(r.cache)
    ensures !r.wrote ==> r.cache == cache0
  {
    if k == 0 then StepResult([], cache0, false)
    else
      var prev := Run(wards, cache0, nows, outcomes, k - 1);
      var st := WardStep(wards[k - 1], prev.cache, nows[k - 1], outcomes[k - 1]);
      StepResult(prev.updates + st.updates, st.cache, prev.wrote || st.wrote)
  }

  lemma SeqAssoc(a: seq<Update>, b: seq<Update>, c: seq<Update>)
    ensures a + (b + c) == (a + b) + c
  {
  }

  /** The loop writes the cache only at the ids of the wards it has fetched. */
  lemma {:induction false} RunKeepsOtherIds(wards: seq<Ward>, cache0: Cache, nows: seq<int>,
                                            outcomes: seq<FetchOutcome>, k: nat, id: string)
    requires k <= |wards| && |nows| == |wards| && |outcomes| == |wards|
    requires forall j :: 0 <= j < k ==> wards[j].id != id
    ensures var c := Run(wards, cache0, nows, outcomes, k).cache;
            (id in c <==> id in cache0) && (id in c ==> c[id] == cache0[id])
  {
    if k > 0 {
      RunKeepsOtherIds(wards, cache0, nows, outcomes, k - 1, id);
    }
  }

  /** The entry a cache holds at an id, if any. */
  function EntryAt(cache: Cache, id: string): Option<CacheEntry> {
    if id in cache then Some(cache[id]) else None
  }

  /** The entry a ward's id ends with, stated from the inputs alone: the
      entry it had when that was fresh, else the fetched record stamped with
      its time, else (the resolver threw) whatever it had before. */
  function CachedAfter(w: Ward, cache0: Cache, now: int, outcome: FetchOutcome): Option<CacheEntry> {
    if Fresh(cache0, w.id, now) then Some(cache0[w.id])
    else match outcome
      case Fetched(record, ts) => Some(CacheEntry(ts, CachedWard(record, w.id, w.name)))
      case Threw(_) => EntryAt(cache0, w.id)
  }

  /** With distinct ids, after the first `k` wards the cache holds at each of
      their ids the entry `CachedAfter` names: later wards never overwrite
      it. */
  lemma {:induction false} RunCacheAt(wards: seq<Ward>, cache0: Cache, nows: seq<int>,
                                      outcomes: seq<FetchOutcome>, k: nat, j: nat)
    requires k <= |wards| && |nows| == |wards| && |outcomes| == |wards| && DistinctWardIds(wards)
    requires j < k
    ensures EntryAt(Run(wards, cache0, nows, outcomes, k).cache, wards[j].id)
            == CachedAfter(wards[j], cache0, nows[j], outcomes[j])
    decreases k
  {
    var id := wards[j].id;
    var prev := Run(wards, cache0, nows, outcomes, k - 1);
    var st := WardStep(wards[k - 1], prev.cache, nows[k - 1], outcomes[k - 1]);
    assert Run(wards, cache0, nows, outcomes, k).cache == st.cache;
    if k == j + 1 {
      RunKeepsOtherIds(wards, cache0, nows, outcomes, j, id);
      assert EntryAt(prev.cache, id) == EntryAt(cache0, id);
      StepEntry(wards[j], prev.cache, cache0, nows[j], outcomes[j]);
    } else {
      RunCacheAt(wards, cache0, nows, outcomes, k - 1, j);
      assert wards[k - 1].id != id;
      assert EntryAt(st.cache, id) == EntryAt(prev.cache, id);
    }
  }

  /** One step writes at its ward's id the entry `CachedAfter` names, given a
      cache that agrees with the initial one there. */
  lemma StepEntry(w: Ward, cache: Cache, cache0: Cache, now: int, outcome: FetchOutcome)
    requires EntryAt(cache, w.id) == EntryAt(cache0, w.id)
    ensures EntryAt(WardStep(w, cache, now, outcome).cache, w.id) == CachedAfter(w, cache0, now, outcome)
  {
    assert Fresh(cache, w.id, now) == Fresh(cache0, w.id, now);
  }

  /** A ward that hit the cache or was fetched is in the cache after the run. */
  lemma RunCachesEveryServedWard(wards: seq<Ward>, cache0: Cache, nows: seq<int>,
                                 outcomes: seq<FetchOutcome>)
    requires |nows| == |wards| && |outcomes| == |wards| && DistinctWardIds(wards)
    ensures forall j :: 0 <= j < |wards| && (Fresh(cache0, wards[j].id, nows[j]) || outcomes[j].Fetched?) ==>
              wards[j].id in Run(wards, cache0, nows, outcomes, |wards|).cache
  {
    forall j | 0 <= j < |wards| && (Fresh(cache0, wards[j].id, nows[j]) || outcomes[j].Fetched?)
      ensures wards[j].id in Run(wards, cache0, nows, outcomes, |wards|).cache
    {
      RunCacheAt(wards, cache0, nows, outcomes, |wards|, j);
    }
  }

  /** The row a ward ends with, stated from the inputs alone: the cached data
      when the cache was fresh, else the fetched record, else an error row that
      keeps the ward's own fields. */
  function Settled(w: Ward, cache0: Cache, now: int, outcome: FetchOutcome): WardEntry
    requires Consistent(cache0)
  {
    if Fresh(cache0, w.id, now) then EntryOf(cache0[w.id].data)
    else match outcome
      case Fetched(record, _) => EntryOf(CachedWard(record, w.id, w.name))
      case Threw(message) => InitialEntry(w).(status := Failed, raw := Some(RawError(message)))
  }

  /** Every row ends done or error: a run never leaves a ward idle or loading. */
  lemma SettledIsFinal(w: Ward, cache0: Cache, now: int, outcome: FetchOutcome)
    requires Consistent(cache0)
    ensures Settled(w, cache0, now, outcome).status == Done <==> Fresh(cache0, w.id, now) || outcome.Fetched?
    ensures Settled(w, cache0, now, outcome).status == Failed <==> !Fresh(cache0, w.id, now) && outcome.Threw?
    ensures Settled(w, cache0, now, outcome).id == w.id
  {
  }

  /** The rows' values after a sequence of updates, all aimed at one row. */
  function MergeAll(e: WardEntry, us: seq<Update>): (m: WardEntry)
    ensures (forall u :: u in us ==> u.data.id.None? || u.data.id == Some(e.id)) ==> m.id == e.id
  {
    if |us| == 0 then e
    else
      var init := MergeAll(e, us[..|us| - 1]);
      assert forall u :: u in us[..|us| - 1] ==> u in us;
      Merge(init, us[|us| - 1].data)
  }

  /** With distinct ids, updates for the id of row `k` touch row `k` only. */
  lemma {:induction false} ApplyAllAt(list: seq<WardEntry>, k: nat, us: seq<Update>)
    requires k < |list| && DistinctIds(list)
    requires forall u :: u in us ==> u.id == list[k].id && (u.data.id.None? || u.data.id == Some(u.id))
    ensures ApplyAll(list, us) == list[k := MergeAll(list[k], us)]
    decreases |us|
  {
    if |us| > 0 {
      var init := us[..|us| - 1];
      var last := us[|us| - 1];
      assert forall u :: u in init ==> u in us;
      ApplyAllAt(list, k, init);
      var m := MergeAll(list[k], init);
      var l' := list[k := m];
      UpdateKeepsDistinct(list, k, m);
      FindIndexOfDistinct(l', k);
    }
  }

  /** Replacing a row by one with the same id keeps the ids distinct. */
  lemma UpdateKeepsDistinct(list: seq<WardEntry>, k: nat, e: WardEntry)
    requires k < |list| && DistinctIds(list) && e.id == list[k].id
    ensures DistinctIds(list[k := e])
  {
    var l' := list[k := e];
    forall i, j | 0 <= i < j < |l'| ensures l'[i].id != l'[j].id {
      assert l'[i].id == list[i].id && l'[j].id == list[j].id;
    }
  }

  /** With distinct ids, the id of row `k` is found at `k`. */
  lemma FindIndexOfDistinct(list: seq<WardEntry>, k: nat)
    requires k < |list| && DistinctIds(list)
    ensures FindIndex(list, list[k].id) == k
  {
    FindIndexFindsFirst(list, list[k].id);
  }

  /** Rows whose ids are those of distinct wards have distinct ids. */
  lemma {:induction false} IdsOfWards(list: seq<WardEntry>, wards: seq<Ward>)
    requires |list| == |wards| && DistinctWardIds(wards)
    requires forall j :: 0 <= j < |wards| ==> list[j].id == wards[j].id
    ensures DistinctIds(list)
  {
    forall i, j | 0 <= i < j < |list| ensures list[i].id != list[j].id {
      assert list[i].id == wards[i].id && list[j].id == wards[j].id;
    }
  }

  /** One iteration settles its ward's row and leaves the other rows alone,
      provided the cache still holds at that id what it held at the start. */
  lemma {:induction false} StepSettles(l0: seq<WardEntry>, wards: seq<Ward>, k: nat, cache0: Cache, cache: Cache,
                    now: int, outcome: FetchOutcome)
    requires k < |wards| && |l0| == |wards| && DistinctWardIds(wards) && Consistent(cache0)
    requires forall j :: 0 <= j < |wards| ==> l0[j].id == wards[j].id
    requires l0[k] == InitialEntry(wards[k])
    requires (wards[k].id in cache <==> wards[k].id in cache0)
    requires wards[k].id in cache ==> cache[wards[k].id] == cache0[wards[k].id]
    ensures ApplyAll(l0, WardStep(wards[k], cache, now, outcome).updates)
            == l0[k := Settled(wards[k], cache0, now, outcome)]
  {
    var w := wards[k];
    var st := WardStep(w, cache, now, outcome);
    var us := st.updates;
    IdsOfWards(l0, wards);
    ApplyAllAt(l0, k, us);
    var settled := Settled(w, cache0, now, outcome);
    if Fresh(cache0, w.id, now) {
      var c := cache0[w.id].data;
      assert us == [Update(w.id, DonePatch(c))];
      assert MergeAll(l0[k], us) == Merge(MergeAll(l0[k], us[..0]), DonePatch(c));
      assert us[..0] == [];
      assert settled == EntryOf(c);
    } else {
      assert MergeAll(l0[k], us) == Merge(MergeAll(l0[k], us[..1]), us[1].data);
      assert us[..1] == [us[0]] && us[..1][..0] == [];
      assert MergeAll(l0[k], us[..1]) == Merge(l0[k], StatusPatch(Loading));
      match outcome {
        case Fetched(record, _) =>
          assert us[1].data == DonePatch(CachedWard(record, w.id, w.name));
        case Threw(message) =>
          assert us[1].data == ErrorPatch(message);
      }
    }
  }

  /** The rows after `k` iterations: one per ward with its id, the first `k`
      settled and the others still idle. */
  ghost predicate SettledUpTo(l: seq<WardEntry>, wards: seq<Ward>, cache0: Cache, nows: seq<int>,
                              outcomes: seq<FetchOutcome>, k: nat)
    requires k <= |wards| && |nows| == |wards| && |outcomes| == |wards| && Consistent(cache0)
  {
    |l| == |wards| &&
    (forall j :: 0 <= j < |wards| ==> l[j].id == wards[j].id) &&
    (forall j :: k <= j < |wards| ==> l[j] == InitialEntry(wards[j])) &&
    (forall j :: 0 <= j < k ==> l[j] == Settled(wards[j], cache0, nows[j], outcomes[j]))
  }

  /** Settling row `k - 1` extends the settled prefix by one. */
  lemma SettleNext(l0: seq<WardEntry>, wards: seq<Ward>, cache0: Cache, nows: seq<int>,
                   outcomes: seq<FetchOutcome>, k: nat)
    requires 0 < k <= |wards| && |nows| == |wards| && |outcomes| == |wards| && Consistent(cache0)
    requires SettledUpTo(l0, wards, cache0, nows, outcomes, k - 1)
    ensures SettledUpTo(l0[k - 1 := Settled(wards[k - 1], cache0, nows[k - 1], outcomes[k - 1])],
                        wards, cache0, nows, outcomes, k)
  {
    SettledIsFinal(wards[k - 1], cache0, nows[k - 1], outcomes[k - 1]);
  }

  /** The `k`-th iteration, run against a cache that agrees with the initial
      one at its ward's id, extends the settled prefix by one row. */
  lemma StepExtends(l0: seq<WardEntry>, wards: seq<Ward>, cache0: Cache, cache: Cache, nows: seq<int>,
                    outcomes: seq<FetchOutcome>, k: nat)
    requires 0 < k <= |wards| && |nows| == |wards| && |outcomes| == |wards|
    requires DistinctWardIds(wards) && Consistent(cache0)
    requires SettledUpTo(l0, wards, cache0, nows, outcomes, k - 1)
    requires (wards[k - 1].id in cache <==> wards[k - 1].id in cache0)
    requires wards[k - 1].id in cache ==> cache[wards[k - 1].id] == cache0[wards[k - 1].id]
    ensures SettledUpTo(ApplyAll(l0, WardStep(wards[k - 1], cache, nows[k - 1], outcomes[k - 1]).updates),
                        wards, cache0, nows, outcomes, k)
  {
    assert l0[k - 1] == InitialEntry(wards[k - 1]);
    StepSettles(l0, wards, k - 1, cache0, cache, nows[k - 1], outcomes[k - 1]);
    SettleNext(l0, wards, cache0, nows, outcomes, k);
  }

  /** After the first `k` iterations, the rows of the processed wards are
      settled and the others are still idle. */
  lemma {:induction false} RunSettles(wards: seq<Ward>, cache0: Cache, nows: seq<int>,
                                      outcomes: seq<FetchOutcome>, k: nat)
    requires k <= |wards| && |nows| == |wards| && |outcomes| == |wards|
    requires DistinctWardIds(wards) && Consistent(cache0)
    ensures SettledUpTo(ApplyAll(InitialList(wards), Run(wards, cache0, nows, outcomes, k).updates),
                        wards, cache0, nows, outcomes, k)
  {
    if k > 0 {
      RunSettles(wards, cache0, nows, outcomes, k - 1);
      NextWardUntouched(wards, cache0, nows, outcomes, k);
      StepExtends(ApplyAll(InitialList(wards), Run(wards, cache0, nows, outcomes, k - 1).updates),
                  wards, cache0, Run(wards, cache0, nows, outcomes, k - 1).cache, nows, outcomes, k);
      RowsStep(wards, cache0, nows, outcomes, k);
    }
  }

  /** With distinct ids, the first `k - 1` iterations leave the cache entry
      of ward `k - 1` as it was. */
  lemma NextWardUntouched(wards: seq<Ward>, cache0: Cache, nows: seq<int>, outcomes: seq<FetchOutcome>, k: nat)
    requires 0 < k <= |wards| && |nows| == |wards| && |outcomes| == |wards| && DistinctWardIds(wards)
    ensures var c := Run(wards, cache0, nows, outcomes, k - 1).cache;
            (wards[k - 1].id in c <==> wards[k - 1].id in cache0) &&
            (wards[k - 1].id in c ==> c[wards[k - 1].id] == cache0[wards[k - 1].id])
  {
    assert forall j :: 0 <= j < k - 1 ==> wards[j].id != wards[k - 1].id;
    RunKeepsOtherIds(wards, cache0, nows, outcomes, k - 1, wards[k - 1].id);
  }

  /** The rows after `k` iterations are those after `k - 1` with the
      iteration's updates applied. */
  lemma RowsStep(wards: seq<Ward>, cache0: Cache, nows: seq<int>, outcomes: seq<FetchOutcome>, k: nat)
    requires 0 < k <= |wards| && |nows| == |wards| && |outcomes| == |wards|
    ensures var prev := Run(wards, cache0, nows, outcomes, k - 1);
            ApplyAll(InitialList(wards), Run(wards, cache0, nows, outcomes, k).updates) ==
            ApplyAll(ApplyAll(InitialList(wards), prev.updates),
                     WardStep(wards[k - 1], prev.cache, nows[k - 1], outcomes[k - 1]).updates)
  {
    var prev := Run(wards, cache0, nows, outcomes, k - 1);
    var st := WardStep(wards[k - 1], prev.cache, nows[k - 1], outcomes[k - 1]);
    ApplyAllConcat(InitialList(wards), prev.updates, st.updates);
    assert Run(wards, cache0, nows, outcomes, k).updates == prev.updates + st.updates;
  }

  /** The position of an id in `WARDS_23`, or -1. */
  function WardRank(id: string): int {
    if id == "chiyoda" then 0
    else if id == "chuo" then 1
    else if id == "minato" then 2
    else if id == "shinjuku" then 3
    else if id == "shibuya" then 4
    else if id == "meguro" then 5
    else if id == "bunkyo" then 6
    else if id == "taito" then 7
    else if id == "sumida" then 8
    else if id == "koto" then 9
    else if id == "edogawa" then 10
    else if id == "adachi" then 11
    else if id == "katsushika" then 12
    else if id == "itabashi" then 13
    else if id == "kita" then 14
    else if id == "nakano" then 15
    else if id == "nerima" then 16
    else if id == "ota" then 17
    else if id == "setagaya" then 18
    else if id == "shinagawa" then 19
    else if id == "suginami" then 20
    else if id == "toshima" then 21
    else if id == "arakawa" then 22
    else -1
  }

  lemma Wards23Distinct()
    ensures DistinctWardIds(Wards23)
  {
    assert forall k :: 0 <= k < |Wards23| ==> WardRank(Wards23[k].id) == k;
  }

  // --- The imperative board ----------------------------------------------------

  /** The ward list state and the local-storage item it is cached in. */
  class WardBoard {
    var list: seq<WardEntry>
    var storage: Stored

    constructor (stored: Stored)
      ensures list == [] && storage == stored
    {
      list := [];
      storage := stored;
    }

    /** One `setWardWeatherList(prev => ...)` over a batch of updates. */
    method Flush(updates: seq<Update>)
      modifies this
      ensures list == ApplyAll(old(list), updates)
      ensures storage == old(storage)
    {
      var next := list;
      var i := 0;
      while i < |updates|
        invariant 0 <= i <= |updates|
        invariant next == ApplyAll(old(list), updates[..i])
      {
        var u := updates[i];
        var idx := FindIndex(next, u.id);
        if idx != -1 {
          next := next[idx := Merge(next[idx], u.data)];
        }
        assert updates[..i + 1][..i] == updates[..i];
        i := i + 1;
      }
      assert updates[..i] == updates;
      list := next;
    }

    /** The flush of the pending updates as one batch, when `flush` holds:
        the list then holds every update flushed so far, and the pending
        updates start afresh. */
    method FlushPending(pending: seq<Update>, batches: seq<seq<Update>>, flush: bool,
                        ghost init: seq<WardEntry>, ghost flushed: seq<Update>)
      returns (pending': seq<Update>, batches': seq<seq<Update>>, ghost flushed': seq<Update>)
      requires list == ApplyAll(init, flushed) && flushed == Flatten(batches)
      modifies this
      ensures list == ApplyAll(init, flushed') && flushed' == Flatten(batches')
      ensures flushed' + pending' == flushed + pending
      ensures flush ==> pending' == [] && batches' == batches + [pending]
      ensures !flush ==> pending' == pending && batches' == batches
      ensures storage == old(storage)
    {
      if flush {
        ApplyAllConcat(init, flushed, pending);
        Flush(pending);
        FlattenSnoc(batches, pending);
        flushed' := flushed + pending;
        batches' := batches + [pending];
        pending' := [];
        assert flushed' + pending' == flushed';
      } else {
        pending', batches', flushed' := pending, batches, flushed;
      }
    }

    /** One pass of the ward loop: a fresh cache entry is pushed as done;
        otherwise 'loading' is pushed, the resolver's outcome is pushed as done
        or error, and a fetched record is written to the cache and saved. */
    method VisitWard(w: Ward, now: int, outcome: FetchOutcome, cache: Cache)
      returns (pushed: seq<Update>, cache': Cache, hit: bool)
      modifies this
      ensures var st := WardStep(w, cache, now, outcome);
              pushed == st.updates && cache' == st.cache && hit == Fresh(cache, w.id, now) &&
              storage == (if st.wrote then Saved(cache') else old(storage))
      ensures list == old(list)
    {
      cache' := cache;
      if w.id in cache && now - cache[w.id].ts < CacheTtlMs {
        return [Update(w.id, DonePatch(cache[w.id].data))], cache', true;
      }
      hit := false;
      pushed := [Update(w.id, StatusPatch(Loading))];
      match outcome {
        case Fetched(record, ts) =>
          var entry := CachedWard(record, w.id, w.name);
          pushed := pushed + [Update(w.id, DonePatch(entry))];
          cache' := cache'[w.id := CacheEntry(ts, entry)];
          storage := Saved(cache');
        case Threw(message) =>
          pushed := pushed + [Update(w.id, ErrorPatch(message))];
      }
    }

    /** Where the loop stands after its first `k` wards: the cache and the
        storage item are those of the run so far, the updates flushed and
        those pending are the run's updates in order, the list holds the
        flushed ones applied, and every batch flushed so far holds at least
        five updates. */
    ghost predicate Progress(wards: seq<Ward>, cache0: Cache, nows: seq<int>, outcomes: seq<FetchOutcome>,
                             stored0: Stored, init: seq<WardEntry>, k: nat,
                             cache: Cache, pending: seq<Update>, batches: seq<seq<Update>>, flushed: seq<Update>)
      requires k <= |wards| && |nows| == |wards| && |outcomes| == |wards|
      reads this
    {
      var run := Run(wards, cache0, nows, outcomes, k);
      cache == run.cache && flushed == Flatten(batches) && flushed + pending == run.updates &&
      list == ApplyAll(init, flushed) && storage == (if run.wrote then Saved(cache) else stored0) &&
      Full(batches)
    }

    /** One iteration of the ward loop: the ward is visited, and the pending
        updates are flushed when a fetch brought them to five or more. */
    method Iterate(wards: seq<Ward>, nows: seq<int>, outcomes: seq<FetchOutcome>, k: nat,
                   cache: Cache, pending: seq<Update>, batches: seq<seq<Update>>,
                   ghost cache0: Cache, ghost stored0: Stored, ghost init: seq<WardEntry>,
                   ghost flushed: seq<Update>)
      returns (cache': Cache, pending': seq<Update>, batches': seq<seq<Update>>, ghost flushed': seq<Update>)
      requires k < |wards| && |nows| == |wards| && |outcomes| == |wards|
      requires Progress(wards, cache0, nows, outcomes, stored0, init, k, cache, pending, batches, flushed)
      modifies this
      ensures Progress(wards, cache0, nows, outcomes, stored0, init, k + 1, cache', pending', batches', flushed')
    {
      ghost var run := Run(wards, cache0, nows, outcomes, k);
      ghost var next := Run(wards, cache0, nows, outcomes, k + 1);
      var pushed, hit;
      pushed, cache', hit := VisitWard(wards[k], nows[k], outcomes[k], cache);
      assert next.updates == run.updates + pushed && next.cache == cache' && next.wrote == (run.wrote || (!hit && outcomes[k].Fetched?));
      SeqAssoc(flushed, pending, pushed);
      pending', batches', flushed' := FlushPending(pending + pushed, batches, !hit && |pending + pushed| >= 5, init, flushed);
    }

    /** The ward loop, from a list of idle rows and the cache loaded from
        storage to the state after the last ward. */
    method VisitAll(wards: seq<Ward>, nows: seq<int>, outcomes: seq<FetchOutcome>, ghost init: seq<WardEntry>)
      returns (cache: Cache, pending: seq<Update>, batches: seq<seq<Update>>, ghost flushed: seq<Update>)
      requires |nows| == |wards| && |outcomes| == |wards|
      requires list == init
      modifies this
      ensures Progress(wards, LoadCache(old(storage)), nows, outcomes, old(storage), init, |wards|,
                       cache, pending, batches, flushed)
    {
      cache := LoadCache(storage);
      ghost var cache0 := cache;
      ghost var stored0 := storage;
      pending := [];
      batches := [];
      flushed := [];
      var k := 0;
      while k < |wards|
        invariant 0 <= k <= |wards|
        invariant Progress(wards, cache0, nows, outcomes, stored0, init, k, cache, pending, batches, flushed)
      {
        cache, pending, batches, flushed :=
          Iterate(wards, nows, outcomes, k, cache, pending, batches, cache0, stored0, init, flushed);
        k := k + 1;
      }
    }

    /** The flush after the loop: whatever is still pending becomes the last
        batch, so the list holds every update and the batches keep their
        shape. */
    method FlushRemainder(pending: seq<Update>, batches: seq<seq<Update>>,
                          ghost init: seq<WardEntry>, ghost flushed: seq<Update>)
      returns (batches': seq<seq<Update>>)
      requires list == ApplyAll(init, flushed) && flushed == Flatten(batches) && Full(batches)
      modifies this
      ensures list == ApplyAll(init, flushed + pending) && Flatten(batches') == flushed + pending
      ensures Batched(batches')
      ensures storage == old(storage)
    {
      var rest;
      ghost var flushed';
      rest, batches', flushed' := FlushPending(pending, batches, |pending| > 0, init, flushed);
      assert rest == [] && flushed' + rest == flushed';
      if |pending| > 0 {
        FullThenLast(batches, pending);
      }
    }

    /** The body of `fetchAllWards` over its ward list, with the clock read
        at each ward's cache check in `nows` and the resolver's outcome for
        each ward in `outcomes`. The batches flushed are returned: all of at
        least five updates but the last. */
    method RefreshWards(wards: seq<Ward>, nows: seq<int>, outcomes: seq<FetchOutcome>)
      returns (batches: seq<seq<Update>>)
      requires |nows| == |wards| && |outcomes| == |wards|
      modifies this
      ensures var run := Run(wards, LoadCache(old(storage)), nows, outcomes, |wards|);
              list == ApplyAll(InitialList(wards), run.updates) &&
              Flatten(batches) == run.updates &&
              storage == (if run.wrote then Saved(run.cache) else old(storage))
      ensures Batched(batches)
      ensures DistinctWardIds(wards) && Consistent(LoadCache(old(storage))) ==>
                |list| == |wards| &&
                forall j :: 0 <= j < |wards| ==>
                  list[j] == Settled(wards[j], LoadCache(old(storage)), nows[j], outcomes[j])
      ensures DistinctWardIds(wards) ==>
                forall j :: 0 <= j < |wards| ==>
                  EntryAt(LoadCache(storage), wards[j].id) ==
                  CachedAfter(wards[j], LoadCache(old(storage)), nows[j], outcomes[j])
    {
      ghost var cache0 := LoadCache(storage);
      var init := InitialList(wards);
      list := init;
      var cache, pending;
      ghost var flushed;
      cache, pending, batches, flushed := VisitAll(wards, nows, outcomes, init);
      batches := FlushRemainder(pending, batches, init, flushed);
      if DistinctWardIds(wards) && Consistent(cache0) {
        RunSettles(wards, cache0, nows, outcomes, |wards|);
      }
      if DistinctWardIds(wards) {
        ghost var run := Run(wards, cache0, nows, outcomes, |wards|);
        assert LoadCache(storage) == run.cache;
        forall j | 0 <= j < |wards|
          ensures EntryAt(run.cache, wards[j].id) == CachedAfter(wards[j], cache0, nows[j], outcomes[j])
        {
          RunCacheAt(wards, cache0, nows, outcomes, |wards|, j);
        }
      }
    }

    /** `fetchAllWards`: the refresh over `WARDS_23`, whose ids are distinct,
        so that with a cache this code wrote every ward ends settled. */
    method FetchAllWards(nows: seq<int>, outcomes: seq<FetchOutcome>) returns (batches: seq<seq<Update>>)
      requires |nows| == |Wards23| && |outcomes| == |Wards23|
      modifies this
      ensures var run := Run(Wards23, LoadCache(old(storage)), nows, outcomes, |Wards23|);
              list == ApplyAll(InitialList(Wards23), run.updates) &&
              Flatten(batches) == run.updates &&
              storage == (if run.wrote then Saved(run.cache) else old(storage))
      ensures Consistent(LoadCache(old(storage))) ==>
                |list| == |Wards23| &&
                forall j :: 0 <= j < |Wards23| ==>
                  list[j] == Settled(Wards23[j], LoadCache(old(storage)), nows[j], outcomes[j])
      ensures forall j :: 0 <= j < |Wards23| ==>
                EntryAt(LoadCache(storage), Wards23[j].id) ==
                CachedAfter(Wards23[j], LoadCache(old(storage)), nows[j], outcomes[j])
      ensures (forall j :: 0 <= j < |Wards23| ==>
                 Fresh(LoadCache(old(storage)), Wards23[j].id, nows[j]) || outcomes[j].Fetched?) ==>
                forall j :: 0 <= j < |Wards23| ==> Wards23[j].id in LoadCache(storage)
    {
      Wards23Distinct();
      batches := RefreshWards(Wards23, nows, outcomes);
    }
  }
}
