/**
 * The geocoding job (backend/app/etl/geocode_projects.py): projects without
 * coordinates are looked up by address, first in a cache kept on disk, then
 * with Nominatim and, when a Google Maps key is configured, with Google; what
 * is found is cached and, outside a dry run, written to the database in
 * batches.  The two providers are parameters of the operations that call
 * them (a provider is the answer it gives for a full address), the cache
 * file and the database are the values they hold, and md5 is left out of the
 * cache key: the key is the string md5 is applied to, md5 being treated as
 * injective.
 */
module GeocodeProjects {
  import opened Wrappers
  import opened Text
  import opened Collections

  datatype Coords = Coords(lat: real, lon: real)

  // ---------------------------------------------------------------------------
  // _build_address
  // ---------------------------------------------------------------------------

  /** `s and s.strip()`. */
  predicate Given(s: string) {
    Strip(s) != ""
  }

  /** The pieces of the full address: the given components, stripped, the region unless it is `RM`, and `Chile`. */
  function AddressParts(address: string, commune: string, region: string): (parts: seq<string>)
    ensures 1 <= |parts| <= 4 && parts[|parts| - 1] == "Chile"
    ensures forall i :: 0 <= i < |parts| - 1 ==> Piece(parts[i])
  {
    StrippedParts(Strip(address), Strip(commune), Strip(region))
  }

  /** A piece of a full address other than `Chile`: non-empty, with no space at either end (so its own strip). */
  predicate Piece(s: string) {
    s != [] && !IsSpace(s[0]) && !IsSpace(s[|s| - 1])
  }

  /** `parts.append(...)` for each stripped component that is not empty, the region unless it is `RM`. */
  function StrippedParts(a: string, c: string, r: string): (parts: seq<string>)
    requires (a == [] || Piece(a)) && (c == [] || Piece(c)) && (r == [] || Piece(r))
    ensures 1 <= |parts| <= 4 && parts[|parts| - 1] == "Chile"
    ensures forall i :: 0 <= i < |parts| - 1 ==> Piece(parts[i])
    ensures a in parts <==> a != ""
    ensures c in parts <==> c != ""
    ensures r != "" && r != "RM" ==> r in parts
    ensures r == "RM" ==> |parts| <= 3
    ensures forall i :: 0 <= i < |parts| - 1 ==> parts[i] == a || parts[i] == c || parts[i] == r
  {
    var p1 := if a != "" then [a] else [];
    var p2 := p1 + (if c != "" then [c] else []);
    var p3 := p2 + (if r != "" && r != "RM" then [r] else []);
    p3 + ["Chile"]
  }

  /** `_build_address`: `", ".join(parts)`. */
  function BuildAddress(address: string, commune: string, region: string): string {
    Join(AddressParts(address, commune, region), ", ")
  }

  /** A text without a comma is not cut by `split(", ")`. */
  lemma {:induction false} SplitOnNoComma(a: string)
    requires ',' !in a
    ensures SplitOn(a, ", ") == [a]
    decreases |a|
  {
    if |a| >= 2 {
      SplitOnNoComma(a[1..]);
      assert a == [a[0]] + a[1..];
    }
  }

  /** A text without a comma is the first piece of what follows it after `", "`. */
  lemma {:induction false} SplitOnFirstPiece(a: string, rest: string)
    requires ',' !in a
    ensures SplitOn(a + ", " + rest, ", ") == [a] + SplitOn(rest, ", ")
    decreases |a|
  {
    var s := a + ", " + rest;
    if a == [] {
      assert s[..2] == ", " && s[2..] == rest;
    } else {
      assert s[0] == a[0];
      assert s[..2] != ", ";
      assert s[1..] == a[1..] + ", " + rest;
      SplitOnFirstPiece(a[1..], rest);
      assert [s[0]] + a[1..] == a;
    }
  }

  /** Pieces without commas joined with `", "` split back into the same pieces. */
  lemma {:induction false} SplitOnJoin(parts: seq<string>)
    requires |parts| >= 1 && forall i :: 0 <= i < |parts| ==> ',' !in parts[i]
    ensures SplitOn(Join(parts, ", "), ", ") == parts
    decreases |parts|
  {
    if |parts| == 1 {
      SplitOnNoComma(parts[0]);
    } else {
      SplitOnJoin(parts[1..]);
      SplitOnFirstPiece(parts[0], Join(parts[1..], ", "));
    }
  }

  /**
   * The full address can be read back: when no component holds a comma,
   * cutting it at `", "` gives the non-blank components, stripped, the region
   * only when it is not `RM`, and `Chile` last.
   */
  lemma BuildAddressParts(address: string, commune: string, region: string)
    requires ',' !in address && ',' !in commune && ',' !in region
    ensures SplitOn(BuildAddress(address, commune, region), ", ") == AddressParts(address, commune, region)
  {
    StripChars(address);
    StripChars(commune);
    StripChars(region);
    JoinStrippedParts(Strip(address), Strip(commune), Strip(region));
  }

  /** Pieces without commas, joined, split back into the same pieces. */
  lemma JoinStrippedParts(a: string, c: string, r: string)
    requires (a == [] || Piece(a)) && (c == [] || Piece(c)) && (r == [] || Piece(r))
    requires ',' !in a && ',' !in c && ',' !in r
    ensures SplitOn(Join(StrippedParts(a, c, r), ", "), ", ") == StrippedParts(a, c, r)
  {
    var parts := StrippedParts(a, c, r);
    assert "Chile" == ['C', 'h', 'i', 'l', 'e'];
    assert ',' !in parts[|parts| - 1];
    SplitOnJoin(parts);
  }

  /** The stripped address and commune are pieces exactly when they are given. */
  lemma AddressPartsGiven(address: string, commune: string, region: string)
    ensures Strip(address) in AddressParts(address, commune, region) <==> Given(address)
    ensures Strip(commune) in AddressParts(address, commune, region) <==> Given(commune)
  {
    var parts := StrippedParts(Strip(address), Strip(commune), Strip(region));
    assert AddressParts(address, commune, region) == parts;
  }

  /** The region is a piece when it is given and not `RM`; `RM` leaves at most the address, the commune and `Chile`. */
  lemma AddressPartsRegion(address: string, commune: string, region: string)
    ensures Given(region) && Strip(region) != "RM" ==> Strip(region) in AddressParts(address, commune, region)
    ensures Strip(region) == "RM" ==> |AddressParts(address, commune, region)| <= 3
  {
    var parts := StrippedParts(Strip(address), Strip(commune), Strip(region));
    assert AddressParts(address, commune, region) == parts;
  }

  // ---------------------------------------------------------------------------
  // GeocodingCache
  // ---------------------------------------------------------------------------

  /** `_make_key`: the text md5 is applied to, `f"{address}|{commune}|{region}".lower().strip()`. */
  function CacheKey(address: string, commune: string, region: string): string {
    Strip(Lower(address + "|" + commune + "|" + region))
  }

  /** What `get` answers for the components. */
  function Lookup(entries: map<string, Coords>, address: string, commune: string, region: string): Option<Coords> {
    var key := CacheKey(address, commune, region);
    if key in entries then Some(entries[key]) else None
  }

  /** The entries after `set`. */
  function Store(entries: map<string, Coords>, address: string, commune: string, region: string, c: Coords): map<string, Coords> {
    entries[CacheKey(address, commune, region) := c]
  }

  lemma LowerAppend(x: string, y: string)
    ensures Lower(x + y) == Lower(x) + Lower(y)
  {
  }

  lemma LowerTwice(x: string)
    ensures Lower(Lower(x)) == Lower(x)
  {
  }

  /** The key ignores the case of the components. */
  lemma CacheKeyIgnoresCase(address: string, commune: string, region: string)
    ensures CacheKey(Lower(address), Lower(commune), Lower(region)) == CacheKey(address, commune, region)
  {
    var s := address + "|" + commune + "|" + region;
    var t := Lower(address) + "|" + Lower(commune) + "|" + Lower(region);
    assert t == Lower(s) by {
      LowerAppend(address, "|");
      LowerAppend(address + "|", commune);
      LowerAppend(address + "|" + commune, "|");
      LowerAppend(address + "|" + commune + "|", region);
      assert Lower("|") == "|";
    }
    LowerTwice(s);
  }

  /** Components the key keeps apart: no capital letter, no `|` in the first two, no space at the outer ends. */
  predicate Canonical(address: string, commune: string, region: string) {
    Lower(address) == address && Lower(commune) == commune && Lower(region) == region &&
    '|' !in address && '|' !in commune &&
    (address == [] || !IsSpace(address[0])) && (region == [] || !IsSpace(region[|region| - 1]))
  }

  lemma CanonicalKey(address: string, commune: string, region: string)
    requires Canonical(address, commune, region)
    ensures CacheKey(address, commune, region) == address + ['|'] + (commune + ['|'] + region)
  {
    var s := address + "|" + commune + "|" + region;
    assert s == address + ['|'] + (commune + ['|'] + region);
    LowerAppend(address, "|");
    LowerAppend(address + "|", commune);
    LowerAppend(address + "|" + commune, "|");
    LowerAppend(address + "|" + commune + "|", region);
    assert Lower("|") == "|";
    assert Lower(s) == s;
    assert s[0] == if address == [] then '|' else address[0];
    assert s[|s| - 1] == if region == [] then '|' else region[|region| - 1];
    StripNoSpace(s);
  }

  /** Two canonical triples share a cache entry only when they are the same triple. */
  lemma CacheKeyInjective(a1: string, c1: string, r1: string, a2: string, c2: string, r2: string)
    requires Canonical(a1, c1, r1) && Canonical(a2, c2, r2)
    requires CacheKey(a1, c1, r1) == CacheKey(a2, c2, r2)
    ensures a1 == a2 && c1 == c2 && r1 == r2
  {
    CanonicalKey(a1, c1, r1);
    CanonicalKey(a2, c2, r2);
    SplitAtFirst(a1, c1 + ['|'] + r1, a2, c2 + ['|'] + r2, '|');
    SplitAtFirst(c1, r1, c2, r2, '|');
  }

  /** `get` after `set` gives the stored coordinates, for the same components in any case, and other keys are untouched. */
  lemma LookupAfterStore(entries: map<string, Coords>, a: string, c: string, r: string, x: Coords,
                         a': string, c': string, r': string)
    ensures Lookup(Store(entries, a, c, r, x), a, c, r) == Some(x)
    ensures Lookup(Store(entries, a, c, r, x), Lower(a), Lower(c), Lower(r)) == Some(x)
    ensures CacheKey(a', c', r') != CacheKey(a, c, r) ==>
              Lookup(Store(entries, a, c, r, x), a', c', r') == Lookup(entries, a', c', r')
  {
    CacheKeyIgnoresCase(a, c, r);
  }

  /** The cache of one run: the dictionary loaded from the cache file. */
  class GeocodingCache {
    var entries: map<string, Coords>

    /** `GeocodingCache(cache_file)`, with what `_load_cache` read. */
    constructor(loaded: map<string, Coords>)
      ensures entries == loaded
    {
      entries := loaded;
    }

    /** `get`. */
    method Get(address: string, commune: string, region: string) returns (r: Option<Coords>)
      ensures r == Lookup(entries, address, commune, region)
    {
      var key := CacheKey(address, commune, region);
      if key in entries {
        return Some(entries[key]);
      }
      return None;
    }

    /** `set`: the entry is stored (and the file rewritten). */
    method Set(address: string, commune: string, region: string, c: Coords)
      modifies this
      ensures entries == Store(old(entries), address, commune, region, c)
    {
      var key := CacheKey(address, commune, region);
      entries := entries[key := c];
    }
  }

  // ---------------------------------------------------------------------------
  // GeocodingService
  // ---------------------------------------------------------------------------

  datatype Stats = Stats(cacheHits: nat, nominatimSuccess: nat, googleSuccess: nat, failures: nat)

  /** `sum(self.stats.values())`. */
  function Total(s: Stats): nat {
    s.cacheHits + s.nominatimSuccess + s.googleSuccess + s.failures
  }

  /**
   * The providers a service calls: Nominatim, and Google when a key is
   * configured (`self.google` is not None).  Each stands for the answer it
   * gives for a full address.
   */
  datatype Providers = Providers(nominatim: string -> Option<Coords>, googleConfigured: bool, google: string -> Option<Coords>)

  /** How one `geocode` call ends. */
  datatype Outcome = CacheHit(coords: Coords) | NominatimFound(coords: Coords) | GoogleFound(coords: Coords) | NotFound

  /**
   * The order `geocode` tries its sources in, for the cache key and the full
   * address of its components: the cache, Nominatim, then Google when it is
   * configured.
   */
  function Resolve(entries: map<string, Coords>, providers: Providers, key: string, full: string): Outcome {
    if key in entries then CacheHit(entries[key])
    else if providers.nominatim(full).Some? then NominatimFound(providers.nominatim(full).value)
    else if providers.googleConfigured && providers.google(full).Some? then GoogleFound(providers.google(full).value)
    else NotFound
  }

  function Answer(o: Outcome): Option<Coords> {
    if o.NotFound? then None else Some(o.coords)
  }

  /** The counters after the call: the one of the outcome goes up. */
  function Counted(s: Stats, o: Outcome): Stats {
    match o
    case CacheHit(_) => s.(cacheHits := s.cacheHits + 1)
    case NominatimFound(_) => s.(nominatimSuccess := s.nominatimSuccess + 1)
    case GoogleFound(_) => s.(googleSuccess := s.googleSuccess + 1)
    case NotFound => s.(failures := s.failures + 1)
  }

  /** The cache after the call: what a provider found is stored under the key. */
  function Remembered(entries: map<string, Coords>, key: string, o: Outcome): map<string, Coords> {
    if o.NominatimFound? || o.GoogleFound? then entries[key := o.coords] else entries
  }

  class GeocodingService {
    const cache: GeocodingCache
    const providers: Providers
    var stats: Stats

    constructor(cache: GeocodingCache, providers: Providers)
      ensures this.cache == cache && this.providers == providers && stats == Stats(0, 0, 0, 0)
    {
      this.cache := cache;
      this.providers := providers;
      stats := Stats(0, 0, 0, 0);
    }

    /** `geocode`. */
    method Geocode(address: string, commune: string, region: string) returns (coords: Option<Coords>)
      modifies this, cache
      ensures var key := CacheKey(address, commune, region);
        var o := Resolve(old(cache.entries), providers, key, BuildAddress(address, commune, region));
        coords == Answer(o) && stats == Counted(old(stats), o) && cache.entries == Remembered(old(cache.entries), key, o)
    {
      var cached := cache.Get(address, commune, region);
      if cached.Some? {
        stats := stats.(cacheHits := stats.cacheHits + 1);
        coords := cached;
      } else {
        coords := LookupProviders(address, commune, region);
      }
    }

    /** The rest of `geocode` when the cache has nothing: Nominatim, then Google if configured; a find is cached. */
    method LookupProviders(address: string, commune: string, region: string) returns (coords: Option<Coords>)
      requires CacheKey(address, commune, region) !in cache.entries
      modifies this, cache
      ensures var key := CacheKey(address, commune, region);
        var o := Resolve(old(cache.entries), providers, key, BuildAddress(address, commune, region));
        coords == Answer(o) && stats == Counted(old(stats), o) && cache.entries == Remembered(old(cache.entries), key, o)
    {
      var full := BuildAddress(address, commune, region);
      coords := providers.nominatim(full);
      if coords.Some? {
        stats := stats.(nominatimSuccess := stats.nominatimSuccess + 1);
        cache.Set(address, commune, region, coords.value);
      } else if providers.googleConfigured {
        coords := providers.google(full);
        if coords.Some? {
          stats := stats.(googleSuccess := stats.googleSuccess + 1);
          cache.Set(address, commune, region, coords.value);
        } else {
          stats := stats.(failures := stats.failures + 1);
        }
      } else {
        stats := stats.(failures := stats.failures + 1);
      }
    }
  }

  /** A cached key is answered from the cache whatever the providers would say. */
  lemma CacheHitCallsNoProvider(entries: map<string, Coords>, p1: Providers, p2: Providers, key: string, full: string)
    requires key in entries
    ensures Resolve(entries, p1, key, full) == CacheHit(entries[key])
    ensures Resolve(entries, p1, key, full) == Resolve(entries, p2, key, full)
  {
  }

  /**
   * Google is only a fallback: it answers exactly when the key is not cached,
   * Nominatim finds nothing, a key is configured and Google finds the
   * address; without a key its answers never matter.
   */
  lemma GoogleIsFallback(entries: map<string, Coords>, providers: Providers, google2: string -> Option<Coords>, key: string, full: string)
    ensures Resolve(entries, providers, key, full).GoogleFound? <==>
      key !in entries && providers.nominatim(full).None? && providers.googleConfigured && providers.google(full).Some?
    ensures !providers.googleConfigured ==>
      Resolve(entries, providers, key, full) == Resolve(entries, providers.(google := google2), key, full)
  {
  }

  /** `geocode` finds coordinates exactly when one of its sources has them. */
  lemma GeocodeFindsIff(entries: map<string, Coords>, providers: Providers, key: string, full: string)
    ensures Answer(Resolve(entries, providers, key, full)).Some? <==>
      key in entries || providers.nominatim(full).Some? || (providers.googleConfigured && providers.google(full).Some?)
  {
  }

  /** Every call raises exactly one counter, by one; the failures exactly when nothing is found. */
  lemma CountedOnce(s: Stats, o: Outcome)
    ensures Total(Counted(s, o)) == Total(s) + 1
    ensures var t := Counted(s, o);
      t.cacheHits >= s.cacheHits && t.nominatimSuccess >= s.nominatimSuccess &&
      t.googleSuccess >= s.googleSuccess && t.failures >= s.failures
    ensures Counted(s, o).failures > s.failures <==> Answer(o).None?
  {
  }

  /**
   * Found coordinates are remembered: the next call for the same key is a
   * cache hit with the same coordinates, whatever the providers answer then.
   * A failure leaves the cache as it was.
   */
  lemma FoundIsRemembered(entries: map<string, Coords>, providers: Providers, later: Providers, key: string, full: string, full2: string)
    ensures var o := Resolve(entries, providers, key, full);
      Answer(o).Some? ==> Resolve(Remembered(entries, key, o), later, key, full2) == CacheHit(Answer(o).value)
    ensures var o := Resolve(entries, providers, key, full);
      o.NotFound? ==> Remembered(entries, key, o) == entries
  {
  }

  /** Components that differ only in case share the cache entry, so the second is a hit. */
  lemma HitIgnoresCase(entries: map<string, Coords>, providers: Providers, address: string, commune: string, region: string)
    requires CacheKey(address, commune, region) in entries
    ensures Resolve(entries, providers, CacheKey(Lower(address), Lower(commune), Lower(region)), BuildAddress(Lower(address), Lower(commune), Lower(region))) ==
            CacheHit(entries[CacheKey(address, commune, region)])
  {
    CacheKeyIgnoresCase(address, commune, region);
  }

  /** The success rate `print_stats` shows, absent when it prints nothing (no call yet). */
  function SuccessRate(s: Stats): (rate: Option<real>)
    ensures rate.Some? <==> Total(s) > 0
    ensures rate.Some? ==> 0.0 <= rate.value <= 100.0
    ensures rate.Some? ==> (rate.value == 100.0 <==> s.failures == 0)
    ensures rate.Some? ==> (rate.value == 0.0 <==> s.failures == Total(s))
  {
    if Total(s) == 0 then None
    else
      var t := Total(s) as real;
      var ok := (Total(s) - s.failures) as real;
      assert 0.0 <= ok <= t;
      QuotientBetween(ok, t, 0.0, 1.0);
      assert ok / t == 1.0 <==> ok == t;
      Some(ok / t * 100.0)
  }

  // ---------------------------------------------------------------------------
  // geocode_projects
  // ---------------------------------------------------------------------------

  /** A column of a fetched row: absent from the row, `null`, or a text. */
  datatype Field = Missing | Null | Value(text: string)

  datatype ProjectRow = ProjectRow(id: string, name: string, address: Field, commune: Field, region: Field)

  /** `project.get(column, default)`. */
  function GetOr(f: Field, default: string): Option<string> {
    match f
    case Missing => Some(default)
    case Null => None
    case Value(s) => Some(s)
  }

  /** `value or ''`. */
  function OrBlank(v: Option<string>): string {
    if v.Some? then v.value else ""
  }

  /** `not value`. */
  predicate Falsy(v: Option<string>) {
    v.None? || v.value == ""
  }

  /** A row with neither an address nor a commune is skipped without a lookup. */
  predicate Skipped(p: ProjectRow) {
    Falsy(GetOr(p.address, "")) && Falsy(GetOr(p.commune, ""))
  }

  predicate Attempted(p: ProjectRow) {
    !Skipped(p)
  }

  function AddressOf(p: ProjectRow): string { OrBlank(GetOr(p.address, "")) }
  function CommuneOf(p: ProjectRow): string { OrBlank(GetOr(p.commune, "")) }
  function RegionOf(p: ProjectRow): string { OrBlank(GetOr(p.region, "RM")) }

  /** The cache key of a row's components. */
  function RowKey(p: ProjectRow): string { CacheKey(AddressOf(p), CommuneOf(p), RegionOf(p)) }

  /** The full address of a row's components. */
  function RowAddress(p: ProjectRow): string { BuildAddress(AddressOf(p), CommuneOf(p), RegionOf(p)) }

  /** One queued database write. */
  datatype CoordUpdate = CoordUpdate(id: string, latitude: real, longitude: real)

  const BatchSize: nat := 50

  /** A fetched row with the cache key and the full address of its components. */
  datatype Row = Row(project: ProjectRow, key: string, full: string)

  function RowOf(p: ProjectRow): Row {
    Row(p, RowKey(p), RowAddress(p))
  }

  predicate AttemptedRow(r: Row) {
    Attempted(r.project)
  }

  /** What the loop has done after some rows: the cache and counters, the tallies, and the writes it queued in order. */
  datatype RunState = RunState(entries: map<string, Coords>, stats: Stats, geocoded: nat, failed: nat, found: seq<CoordUpdate>)

  /** A looked-up row with outcome `o`: the cache and counters as `geocode` leaves them, and the tallies. */
  function Apply(s: RunState, r: Row, o: Outcome): RunState {
    var s' := s.(entries := Remembered(s.entries, r.key, o), stats := Counted(s.stats, o));
    if o.NotFound? then s'.(failed := s.failed + 1)
    else s'.(geocoded := s.geocoded + 1, found := s.found + [CoordUpdate(r.project.id, o.coords.lat, o.coords.lon)])
  }

  /** A row found is counted as geocoded and its write queued after the earlier ones. */
  lemma ApplyFound(s: RunState, r: Row, o: Outcome)
    requires !o.NotFound?
    ensures Apply(s, r, o) == RunState(Remembered(s.entries, r.key, o), Counted(s.stats, o), s.geocoded + 1, s.failed,
                                       s.found + [CoordUpdate(r.project.id, o.coords.lat, o.coords.lon)])
  {
  }

  /** A row not found is counted as failed and queues nothing. */
  lemma ApplyNotFound(s: RunState, r: Row, o: Outcome)
    requires o.NotFound?
    ensures Apply(s, r, o) == RunState(s.entries, Counted(s.stats, o), s.geocoded, s.failed + 1, s.found)
  {
  }

  /** What `geocode` does for the row, from the cache as it is when the loop reaches it. */
  function RowOutcome(s: RunState, r: Row, providers: Providers): Outcome {
    Resolve(s.entries, providers, r.key, r.full)
  }

  /** One row of the loop. */
  function Step(s: RunState, r: Row, providers: Providers): RunState {
    if Skipped(r.project) then s.(failed := s.failed + 1)
    else Apply(s, r, RowOutcome(s, r, providers))
  }

  /** A row that is not skipped is looked up. */
  lemma StepAttempted(s: RunState, r: Row, providers: Providers)
    requires AttemptedRow(r)
    ensures Step(s, r, providers) == Apply(s, r, RowOutcome(s, r, providers))
  {
  }

  /** A row that is skipped is counted as failed and changes nothing else. */
  lemma StepSkipped(s: RunState, r: Row, providers: Providers)
    requires Skipped(r.project)
    ensures Step(s, r, providers) == s.(failed := s.failed + 1)
  {
  }

  /** The loop over the rows, in order. */
  function Run(s: RunState, rows: seq<Row>, providers: Providers): RunState
    decreases |rows|
  {
    if rows == [] then s
    else Step(Run(s, rows[..|rows| - 1], providers), rows[|rows| - 1], providers)
  }

  /** The loop after one more row. */
  lemma RunSnoc(s: RunState, rows: seq<Row>, i: nat, providers: Providers)
    requires i < |rows|
    ensures Run(s, rows[..i + 1], providers) == Step(Run(s, rows[..i], providers), rows[i], providers)
  {
    assert rows[..i + 1][..i] == rows[..i];
  }

  /**
   * Every row is counted once, as geocoded or as failed; one write is queued
   * per geocoded row, after the earlier ones; and the cache or a provider is
   * asked once per row that is not skipped.
   */
  lemma {:induction false} RunTallies(s: RunState, rows: seq<Row>, providers: Providers)
    ensures var t := Run(s, rows, providers);
      t.geocoded + t.failed == s.geocoded + s.failed + |rows| &&
      t.geocoded >= s.geocoded && |t.found| == |s.found| + (t.geocoded - s.geocoded) &&
      t.found[..|s.found|] == s.found &&
      Total(t.stats) == Total(s.stats) + CountOf(rows, AttemptedRow) &&
      t.failed - s.failed >= |rows| - CountOf(rows, AttemptedRow)
    decreases |rows|
  {
    if rows != [] {
      var init := rows[..|rows| - 1];
      RunTallies(s, init, providers);
      var u := Run(s, init, providers);
      var r := rows[|rows| - 1];
      if AttemptedRow(r) {
        CountedOnce(u.stats, RowOutcome(u, r, providers));
      }
      var t := Run(s, rows, providers);
      assert t.found[..|u.found|] == u.found;
      assert t.found[..|s.found|] == u.found[..|s.found|];
    }
  }

  /** Every queued write belongs to a row that was looked up, and carries what `geocode` answered for it then. */
  lemma {:induction false} FoundFromRow(s: RunState, rows: seq<Row>, providers: Providers, j: nat) returns (i: nat)
    requires |s.found| <= j < |Run(s, rows, providers).found|
    ensures i < |rows| && AttemptedRow(rows[i]) && rows[i].project.id == Run(s, rows, providers).found[j].id
    ensures var w := Run(s, rows, providers).found[j];
      Answer(RowOutcome(Run(s, rows[..i], providers), rows[i], providers)) == Some(Coords(w.latitude, w.longitude))
    decreases |rows|
  {
    var init := rows[..|rows| - 1];
    var u := Run(s, init, providers);
    RunTallies(s, init, providers);
    var t := Run(s, rows, providers);
    assert t.found[..|u.found|] == u.found;
    if j < |u.found| {
      i := FoundFromRow(s, init, providers, j);
      assert init[..i] == rows[..i];
    } else {
      i := |rows| - 1;
      assert rows[..i] == init;
    }
  }

  /** A dry run is forced unless `--limit` is given without `--dry-run`. */
  function EffectiveDryRun(dryRunFlag: bool, limit: Option<nat>): (dryRun: bool)
    ensures !dryRun <==> limit.Some? && !dryRunFlag
  {
    dryRunFlag || !(limit.Some? && !dryRunFlag)
  }

  /** `get_projects_without_coords` over the rows without latitude: the limit applies only when it is not 0. */
  function Requested(rows: seq<ProjectRow>, limit: Option<nat>): (r: seq<ProjectRow>)
    ensures limit.None? || limit.value == 0 ==> r == rows
    ensures limit.Some? && limit.value > 0 ==> |r| == if |rows| < limit.value then |rows| else limit.value
  {
    if limit.Some? && limit.value != 0 then Take(rows, limit.value) else rows
  }

  /** A run that writes to the database always carries a limit, and covers every row only with `--limit 0` or a limit as large as the rows. */
  lemma RealRunNeedsLimit(dryRunFlag: bool, limit: Option<nat>, rows: seq<ProjectRow>)
    requires !EffectiveDryRun(dryRunFlag, limit)
    ensures limit.Some?
    ensures Requested(rows, limit) == rows <==> limit.value == 0 || |rows| <= limit.value
  {
    if limit.value > 0 && |rows| > limit.value {
      assert |Requested(rows, limit)| < |rows|;
    }
  }

  /** `geocoder.geocode(address or '', commune or '', region or '')` for a row that is not skipped. */
  method GeocodeRow(service: GeocodingService, p: ProjectRow, ghost r: Row, ghost t: RunState) returns (coords: Option<Coords>)
    requires r == RowOf(p)
    requires service.cache.entries == t.entries && service.stats == t.stats
    modifies service, service.cache
    ensures var o := RowOutcome(t, r, service.providers);
      service.cache.entries == Remembered(t.entries, r.key, o) && service.stats == Counted(t.stats, o) &&
      coords == Answer(o)
  {
    coords := service.Geocode(AddressOf(p), CommuneOf(p), RegionOf(p));
  }

  function Start(loaded: map<string, Coords>): RunState {
    RunState(loaded, Stats(0, 0, 0, 0), 0, 0, [])
  }

  /** Every one of the first `n` sends goes through. */
  predicate AllSent(n: nat, sendOk: nat -> bool) {
    forall j :: 0 <= j < n ==> sendOk(j)
  }

  /** The groups of writes among `sends` whose send went through (send `j` goes through when `sendOk(j)`). */
  function Delivered(sends: seq<seq<CoordUpdate>>, sendOk: nat -> bool): seq<seq<CoordUpdate>> {
    if sends == [] then []
    else Delivered(sends[..|sends| - 1], sendOk) + if sendOk(|sends| - 1) then [sends[|sends| - 1]] else []
  }

  /** One more send adds its writes to what was delivered exactly when it goes through. */
  lemma DeliveredSnoc(sends: seq<seq<CoordUpdate>>, g: seq<CoordUpdate>, sendOk: nat -> bool)
    ensures Flatten(Delivered(sends + [g], sendOk)) == Flatten(Delivered(sends, sendOk)) + if sendOk(|sends|) then g else []
  {
    assert (sends + [g])[..|sends|] == sends;
    var d := Delivered(sends, sendOk);
    if sendOk(|sends|) {
      assert (d + [g])[..|d|] == d;
    } else {
      assert d + [] == d;
    }
  }

  /**
   * The sends made inside the loop: each holds at least `BatchSize` writes;
   * the first one, and one after a send that went through, exactly
   * `BatchSize`; one after a failed send repeats the failed batch with one
   * more write, because a failed batch is not cleared.
   */
  predicate LoopSends(sends: seq<seq<CoordUpdate>>, sendOk: nat -> bool) {
    forall j :: 0 <= j < |sends| ==>
      BatchSize <= |sends[j]| &&
      if j == 0 || sendOk(j - 1) then |sends[j]| == BatchSize
      else |sends[j]| == |sends[j - 1]| + 1 && sends[j][..|sends[j - 1]|] == sends[j - 1]
  }

  /** The batch waiting after the sends so far: short after a send that went through (or before any), the failed batch itself otherwise. */
  predicate Pending(sends: seq<seq<CoordUpdate>>, batch: seq<CoordUpdate>, sendOk: nat -> bool) {
    if sends == [] || sendOk(|sends| - 1) then |batch| < BatchSize else batch == sends[|sends| - 1]
  }

  /** The loop's variables agree with the state `t` of the loop over the rows so far. */
  predicate Mirrors(entries: map<string, Coords>, stats: Stats, geocoded: nat, failed: nat,
                    sends: seq<seq<CoordUpdate>>, batch: seq<CoordUpdate>, dryRun: bool, sendOk: nat -> bool, t: RunState)
  {
    entries == t.entries && stats == t.stats && geocoded == t.geocoded && failed == t.failed &&
    (if dryRun then sends == [] && batch == [] else Flatten(Delivered(sends, sendOk)) + batch == t.found) &&
    LoopSends(sends, sendOk) && Pending(sends, batch, sendOk)
  }

  /** A skipped row leaves the loop's variables agreeing with the state. */
  lemma MirrorsSkip(entries: map<string, Coords>, stats: Stats, geocoded: nat, failed: nat,
                    sends: seq<seq<CoordUpdate>>, batch: seq<CoordUpdate>, dryRun: bool, sendOk: nat -> bool, t: RunState)
    requires Mirrors(entries, stats, geocoded, failed, sends, batch, dryRun, sendOk, t)
    ensures Mirrors(entries, stats, geocoded, failed + 1, sends, batch, dryRun, sendOk, t.(failed := t.failed + 1))
  {
  }

  /** A batch that reached `BatchSize` writes, sent after the sends so far, keeps the shape of the loop's sends. */
  lemma LoopSendsSnoc(sends: seq<seq<CoordUpdate>>, batch: seq<CoordUpdate>, w: CoordUpdate, sendOk: nat -> bool)
    requires LoopSends(sends, sendOk) && Pending(sends, batch, sendOk)
    requires |batch| + 1 >= BatchSize
    ensures LoopSends(sends + [batch + [w]], sendOk)
  {
    var s' := sends + [batch + [w]];
    forall j | 0 <= j < |s'|
      ensures BatchSize <= |s'[j]| &&
              if j == 0 || sendOk(j - 1) then |s'[j]| == BatchSize
              else |s'[j]| == |s'[j - 1]| + 1 && s'[j][..|s'[j - 1]|] == s'[j - 1]
    {
      if j < |sends| {
        assert s'[j] == sends[j];
        if j > 0 {
          assert s'[j - 1] == sends[j - 1];
        }
      } else if j > 0 && !sendOk(j - 1) {
        assert s'[j - 1] == sends[j - 1] == batch;
        assert (batch + [w])[..|batch|] == batch;
      }
    }
  }

  /**
   * `updates_batch.append(...)`: once the batch holds `BatchSize` writes it
   * is sent; it is cleared only when the send goes through, so a failed batch
   * stays and is sent again, one write longer, with the next write.
   */
  method Enqueue(sends: seq<seq<CoordUpdate>>, batch: seq<CoordUpdate>, w: CoordUpdate, sendOk: nat -> bool)
    returns (sends': seq<seq<CoordUpdate>>, batch': seq<CoordUpdate>)
    requires LoopSends(sends, sendOk) && Pending(sends, batch, sendOk)
    ensures LoopSends(sends', sendOk) && Pending(sends', batch', sendOk)
    ensures Flatten(Delivered(sends', sendOk)) + batch' == Flatten(Delivered(sends, sendOk)) + batch + [w]
    ensures |batch| + 1 >= BatchSize ==>
              sends' == sends + [batch + [w]] && (batch' == [] <==> sendOk(|sends|))
    ensures |batch| + 1 < BatchSize ==> sends' == sends && batch' == batch + [w]
  {
    var full := batch + [w];
    sends', batch' := sends, full;
    if |full| >= BatchSize {
      LoopSendsSnoc(sends, batch, w, sendOk);
      DeliveredSnoc(sends, full, sendOk);
      sends' := sends + [full];
      assert |sends'| - 1 == |sends| && sends'[|sends|] == full;
      if sendOk(|sends|) {
        batch' := [];
        assert Flatten(Delivered(sends', sendOk)) + batch' == Flatten(Delivered(sends, sendOk)) + full;
      } else {
        assert Flatten(Delivered(sends', sendOk)) == Flatten(Delivered(sends, sendOk));
      }
    }
  }

  /** With every send through, the loop's sends hold `BatchSize` writes each. */
  lemma {:induction false} FullLength(sends: seq<seq<CoordUpdate>>, sendOk: nat -> bool)
    requires LoopSends(sends, sendOk) && AllSent(|sends|, sendOk)
    ensures forall j :: 0 <= j < |sends| ==> |sends[j]| == BatchSize
    ensures |Flatten(sends)| == |sends| * BatchSize
    decreases |sends|
  {
    if sends != [] {
      var init := sends[..|sends| - 1];
      assert LoopSends(init, sendOk) by {
        forall j | 0 <= j < |init|
          ensures BatchSize <= |init[j]| &&
                  if j == 0 || sendOk(j - 1) then |init[j]| == BatchSize
                  else |init[j]| == |init[j - 1]| + 1 && init[j][..|init[j - 1]|] == init[j - 1]
        {
          assert init[j] == sends[j];
          if j > 0 {
            assert init[j - 1] == sends[j - 1];
          }
        }
      }
      FullLength(init, sendOk);
      assert |sends[|sends| - 1]| == BatchSize;
    }
  }

  /**
   * How the writes went out: a failed send is sent again at the head of the
   * next; `lost`, when not empty, is the last send, which failed; with every
   * send through nothing is lost and the sends hold `BatchSize` writes each
   * but the last, which holds at least one.
   */
  predicate SentInBatches(sends: seq<seq<CoordUpdate>>, lost: seq<CoordUpdate>, sendOk: nat -> bool) {
    (forall j :: 0 < j < |sends| && !sendOk(j - 1) ==>
      |sends[j - 1]| <= |sends[j]| && sends[j][..|sends[j - 1]|] == sends[j - 1]) &&
    (lost != [] ==> sends != [] && !sendOk(|sends| - 1) && lost == sends[|sends| - 1]) &&
    (AllSent(|sends|, sendOk) ==>
      lost == [] &&
      (forall j :: 0 <= j < |sends| ==> 0 < |sends[j]| <= BatchSize) &&
      (forall j :: 0 <= j < |sends| - 1 ==> |sends[j]| == BatchSize))
  }

  /**
   * The final `if updates_batch:` send: whatever is waiting, a short batch or
   * a failed full one, is sent once more; when that send fails too its
   * writes are lost.
   */
  method Flush(sends: seq<seq<CoordUpdate>>, batch: seq<CoordUpdate>, sendOk: nat -> bool)
    returns (sends': seq<seq<CoordUpdate>>, lost: seq<CoordUpdate>)
    requires LoopSends(sends, sendOk) && Pending(sends, batch, sendOk)
    ensures SentInBatches(sends', lost, sendOk)
    ensures Flatten(Delivered(sends', sendOk)) + lost == Flatten(Delivered(sends, sendOk)) + batch
    ensures batch == [] ==> sends' == sends && lost == []
    ensures batch != [] ==> sends' == sends + [batch] && (lost == [] <==> sendOk(|sends|))
  {
    sends', lost := sends, [];
    if batch != [] {
      DeliveredSnoc(sends, batch, sendOk);
      sends' := sends + [batch];
      if !sendOk(|sends|) {
        lost := batch;
      }
    }
    FlushShape(sends, batch, sends', lost, sendOk);
  }

  lemma FlushShape(sends: seq<seq<CoordUpdate>>, batch: seq<CoordUpdate>, sends': seq<seq<CoordUpdate>>, lost: seq<CoordUpdate>,
                   sendOk: nat -> bool)
    requires LoopSends(sends, sendOk) && Pending(sends, batch, sendOk)
    requires batch == [] ==> sends' == sends && lost == []
    requires batch != [] ==> sends' == sends + [batch] && lost == if sendOk(|sends|) then [] else batch
    ensures SentInBatches(sends', lost, sendOk)
  {
    forall j | 0 < j < |sends'| && !sendOk(j - 1)
      ensures |sends'[j - 1]| <= |sends'[j]| && sends'[j][..|sends'[j - 1]|] == sends'[j - 1]
    {
      assert sends'[j - 1] == sends[j - 1];
      if j == |sends| {
        assert sends'[j] == batch == sends[j - 1];
      } else {
        assert sends'[j] == sends[j];
      }
    }
    if AllSent(|sends'|, sendOk) {
      FullLength(sends, sendOk);
      forall j | 0 <= j < |sends'|
        ensures 0 < |sends'[j]| <= BatchSize && (j < |sends'| - 1 ==> |sends'[j]| == BatchSize)
      {
        if j < |sends| {
          assert sends'[j] == sends[j];
        }
      }
    }
  }

  /** Tallying a row looked up with outcome `o` and queueing its write outside a dry run. */
  method Record(p: ProjectRow, ghost r: Row, ghost o: Outcome, coords: Option<Coords>, dryRun: bool, sendOk: nat -> bool,
                sends: seq<seq<CoordUpdate>>, batch: seq<CoordUpdate>, geocoded: nat, failed: nat, ghost t: RunState)
    returns (sends': seq<seq<CoordUpdate>>, batch': seq<CoordUpdate>, geocoded': nat, failed': nat)
    requires r.project == p && coords == Answer(o)
    requires Mirrors(t.entries, t.stats, geocoded, failed, sends, batch, dryRun, sendOk, t)
    ensures Mirrors(Remembered(t.entries, r.key, o), Counted(t.stats, o), geocoded', failed', sends', batch', dryRun, sendOk,
                    Apply(t, r, o))
  {
    sends', batch', geocoded', failed' := sends, batch, geocoded, failed;
    if coords.Some? {
      ApplyFound(t, r, o);
      geocoded' := geocoded + 1;
      if !dryRun {
        sends', batch' := Enqueue(sends, batch, CoordUpdate(p.id, coords.value.lat, coords.value.lon), sendOk);
      }
    } else {
      ApplyNotFound(t, r, o);
      failed' := failed + 1;
    }
  }

  /** The body of the loop for one row: skip it, or look it up, count it and queue its write. */
  method ProcessRow(service: GeocodingService, p: ProjectRow, ghost r: Row, dryRun: bool, sendOk: nat -> bool,
                    sends: seq<seq<CoordUpdate>>, batch: seq<CoordUpdate>, geocoded: nat, failed: nat, ghost t: RunState)
    returns (sends': seq<seq<CoordUpdate>>, batch': seq<CoordUpdate>, geocoded': nat, failed': nat)
    requires r == RowOf(p)
    requires Mirrors(service.cache.entries, service.stats, geocoded, failed, sends, batch, dryRun, sendOk, t)
    modifies service, service.cache
    ensures Mirrors(service.cache.entries, service.stats, geocoded', failed', sends', batch', dryRun, sendOk,
                    Step(t, r, service.providers))
  {
    if Skipped(p) {
      sends', batch', geocoded', failed' := sends, batch, geocoded, failed + 1;
      StepSkipped(t, r, service.providers);
      MirrorsSkip(service.cache.entries, service.stats, geocoded, failed, sends, batch, dryRun, sendOk, t);
    } else {
      ghost var o := RowOutcome(t, r, service.providers);
      StepAttempted(t, r, service.providers);
      var coords := GeocodeRow(service, p, r, t);
      sends', batch', geocoded', failed' := Record(p, r, o, coords, dryRun, sendOk, sends, batch, geocoded, failed, t);
    }
  }

  /** The loop of `geocode_projects` over the rows, through one service sharing one cache. */
  method GeocodeRows(projects: seq<ProjectRow>, dryRun: bool, loaded: map<string, Coords>, providers: Providers, sendOk: nat -> bool)
    returns (geocoded: nat, failed: nat, sends: seq<seq<CoordUpdate>>, batch: seq<CoordUpdate>, stats: Stats)
    ensures var t := Run(Start(loaded), MapSeq(projects, RowOf), providers);
      Mirrors(t.entries, stats, geocoded, failed, sends, batch, dryRun, sendOk, t)
  {
    geocoded, failed, sends, batch := 0, 0, [], [];
    ghost var rows := MapSeq(projects, RowOf);
    var cache := new GeocodingCache(loaded);
    var service := new GeocodingService(cache, providers);
    for i := 0 to |projects|
      invariant service.cache == cache && service.providers == providers
      invariant Mirrors(cache.entries, service.stats, geocoded, failed, sends, batch, dryRun, sendOk,
                        Run(Start(loaded), rows[..i], providers))
    {
      ghost var t := Run(Start(loaded), rows[..i], providers);
      RunSnoc(Start(loaded), rows, i, providers);
      assert rows[i] == RowOf(projects[i]);
      sends, batch, geocoded, failed := ProcessRow(service, projects[i], rows[i], dryRun, sendOk, sends, batch, geocoded, failed, t);
    }
    assert rows[..|projects|] == rows;
    stats := service.stats;
  }

  /**
   * `geocode_projects`: nothing happens for a preview; otherwise every row is
   * looked up in order through one service sharing one cache, the tallies are
   * kept, and outside a dry run the writes are sent in batches of 50, the
   * rest at the end.  `sends` are the groups of writes sent together, in
   * order; send `j` goes through when `sendOk(j)`, and a failure is caught
   * and reported.  The writes of the sends that went through, followed by
   * the `lost` ones of a failed final send, are the found writes, each once.
   */
  method RunGeocoding(projects: seq<ProjectRow>, dryRun: bool, previewOnly: bool, loaded: map<string, Coords>, providers: Providers,
                      sendOk: nat -> bool)
    returns (geocoded: nat, failed: nat, sends: seq<seq<CoordUpdate>>, lost: seq<CoordUpdate>, stats: Stats)
    ensures previewOnly ==> geocoded == 0 && failed == 0 && sends == [] && lost == [] && stats == Stats(0, 0, 0, 0)
    ensures !previewOnly ==>
      var t := Run(Start(loaded), MapSeq(projects, RowOf), providers);
      geocoded == t.geocoded && failed == t.failed && stats == t.stats &&
      Flatten(Delivered(sends, sendOk)) + lost == (if dryRun then [] else t.found)
    ensures dryRun ==> sends == [] && lost == []
    ensures SentInBatches(sends, lost, sendOk)
  {
    geocoded, failed, sends, lost, stats := 0, 0, [], [], Stats(0, 0, 0, 0);
    if previewOnly || |projects| == 0 {
      return;
    }
    var batch;
    geocoded, failed, sends, batch, stats := GeocodeRows(projects, dryRun, loaded, providers, sendOk);
    if !dryRun {
      sends, lost := Flush(sends, batch, sendOk);
    }
  }
}
