/**
 * The term-search and name-lookup results of the ESI client
 * (`ai_agents/tools/esi/universe_calls.py`): the categories hits are grouped under,
 * the per-term hit container, client-side filtering of the `/universe/ids/`
 * response and the id lookup in the `/universe/names/` response.
 */
module EsiUniverse {
  import opened Wrappers
  import opened RawPayload

  /** The categories the term search groups its hits under (`TermsHitCategory`). */
  datatype TermsHitCategory =
    | Agents | Alliances | Characters | Constellations | Corporations
    | Factions | InventoryTypes | Regions | Stations | Systems
  {
    /** The member's `.value`, its key in the response object. */
    function Value(): string
    {
      match this
      case Agents => "agents"
      case Alliances => "alliances"
      case Characters => "characters"
      case Constellations => "constellations"
      case Corporations => "corporations"
      case Factions => "factions"
      case InventoryTypes => "inventory_types"
      case Regions => "regions"
      case Stations => "stations"
      case Systems => "systems"
    }
  }

  /** The members in declaration order, as iterating the enum yields them. */
  const AllTermsHitCategories: seq<TermsHitCategory> :=
    [Agents, Alliances, Characters, Constellations, Corporations,
     Factions, InventoryTypes, Regions, Stations, Systems]

  /** `TermsHitCategory(value)`: the member with that value; `None` where Python raises `ValueError`. */
  function TermsHitCategoryOf(value: string): (r: Option<TermsHitCategory>)
    ensures r.Some? ==> r.value.Value() == value
    ensures r.None? ==> forall c: TermsHitCategory :: c.Value() != value
  {
    if value == "agents" then Some(Agents)
    else if value == "alliances" then Some(Alliances)
    else if value == "characters" then Some(Characters)
    else if value == "constellations" then Some(Constellations)
    else if value == "corporations" then Some(Corporations)
    else if value == "factions" then Some(Factions)
    else if value == "inventory_types" then Some(InventoryTypes)
    else if value == "regions" then Some(Regions)
    else if value == "stations" then Some(Stations)
    else if value == "systems" then Some(Systems)
    else None
  }

  /** Every category is recovered from its value: values are distinct and all known. */
  lemma TermsHitCategoryRoundTrip(c: TermsHitCategory)
    ensures TermsHitCategoryOf(c.Value()) == Some(c)
  {
  }

  /** Different categories have different values. */
  lemma ValueInjective(c: TermsHitCategory, d: TermsHitCategory)
    ensures c.Value() == d.Value() ==> c == d
  {
    TermsHitCategoryRoundTrip(c);
    TermsHitCategoryRoundTrip(d);
  }

  /** The categories of the name lookup (`IdsHitCategory`). */
  datatype IdsHitCategory =
    | Alliance | Character | Constellation | Corporation | Faction
    | InventoryType | Region | SolarSystem | Station
  {
    /** The member's `.value`, as the `/universe/names/` response spells it. */
    function Value(): string
    {
      match this
      case Alliance => "alliance"
      case Character => "character"
      case Constellation => "constellation"
      case Corporation => "corporation"
      case Faction => "faction"
      case InventoryType => "inventory_type"
      case Region => "region"
      case SolarSystem => "solar_system"
      case Station => "station"
    }
  }

  /** `IdsHitCategory(value)`: the member with that value; `None` where Python raises `ValueError`. */
  function IdsHitCategoryOf(value: string): (r: Option<IdsHitCategory>)
    ensures r.Some? ==> r.value.Value() == value
    ensures r.None? ==> forall c: IdsHitCategory :: c.Value() != value
  {
    if value == "alliance" then Some(Alliance)
    else if value == "character" then Some(Character)
    else if value == "constellation" then Some(Constellation)
    else if value == "corporation" then Some(Corporation)
    else if value == "faction" then Some(Faction)
    else if value == "inventory_type" then Some(InventoryType)
    else if value == "region" then Some(Region)
    else if value == "solar_system" then Some(SolarSystem)
    else if value == "station" then Some(Station)
    else None
  }

  /** Every name-lookup category is recovered from its value. */
  lemma IdsHitCategoryRoundTrip(c: IdsHitCategory)
    ensures IdsHitCategoryOf(c.Value()) == Some(c)
  {
  }

  /** One hit of a term search (`TermSearchHit`). */
  datatype TermSearchHit = TermSearchHit(name: string, category: TermsHitCategory, id: int)

  /** One hit of a name lookup (`IdSearchHit`). */
  datatype IdSearchHit = IdSearchHit(name: string, category: IdsHitCategory, id: int)

  /** The exceptions this module raises. */
  datatype Error =
    | InvalidCategoryValue(value: string)       // ValueError of `TermsHitCategory(value)` or `IdsHitCategory(value)`
    | UnknownCategory(category: TermsHitCategory) // ValueError of `add_hit` for a key the container lacks
    | MissingCategoryKey(key: string)           // KeyError of `get_hits_for_category`

  /** The hits map of a fresh container: every category's value, each with an empty list. */
  function EmptyHits(): (m: map<string, seq<TermSearchHit>>)
    ensures forall c: TermsHitCategory :: c.Value() in m && m[c.Value()] == []
    ensures forall key :: key in m ==> TermsHitCategoryOf(key).Some?
  {
    map["agents" := [], "alliances" := [], "characters" := [], "constellations" := [],
        "corporations" := [], "factions" := [], "inventory_types" := [], "regions" := [],
        "stations" := [], "systems" := []]
  }

  /** The default map's keys are exactly the values of the enum's members. */
  lemma EmptyHitsKeys()
    ensures EmptyHits().Keys == set c | c in AllTermsHitCategories :: c.Value()
  {
  }

  /** The hits found for one search term, by category value (`TermSearchHits`). */
  class TermSearchHits {
    const searchTerm: string
    var hits: map<string, seq<TermSearchHit>>

    /** A container over `hits`; an absent or empty `hits` (both falsy) gives every category an empty list. */
    constructor (searchTerm: string, hits: map<string, seq<TermSearchHit>>)
      ensures this.searchTerm == searchTerm
      ensures hits == map[] ==> this.hits == EmptyHits()
      ensures hits != map[] ==> this.hits == hits
    {
      this.searchTerm := searchTerm;
      this.hits := if hits != map[] then hits else EmptyHits();
    }

    /** `add_hit`: append `hit` to its category's list; raise when the container has no such key. */
    method AddHit(category: TermsHitCategory, hit: TermSearchHit) returns (outcome: Outcome<Error>)
      modifies this
      ensures outcome.Pass? <==> category.Value() in old(hits)
      ensures outcome.Fail? ==> outcome.error == UnknownCategory(category) && hits == old(hits)
      ensures outcome.Pass? ==> hits == old(hits)[category.Value() := old(hits)[category.Value()] + [hit]]
      ensures hits.Keys == old(hits).Keys
    {
      var key := category.Value();
      if key in hits {
        hits := hits[key := hits[key] + [hit]];
        outcome := Pass;
      } else {
        outcome := Fail(UnknownCategory(category));
      }
    }

    /** `get_hits_for_category`: the list stored under the category, or a `KeyError`. */
    function GetHitsForCategory(category: TermsHitCategory): (r: Result<seq<TermSearchHit>, Error>)
      reads this
      ensures r.Success? <==> category.Value() in hits
      ensures r.Success? ==> r.value == hits[category.Value()]
      ensures r.Failure? ==> r.error == MissingCategoryKey(category.Value())
    {
      var key := category.Value();
      if key in hits then Success(hits[key]) else Failure(MissingCategoryKey(key))
    }
  }

  /** The response records made into hits of category `c`, name and id unchanged, in order. */
  function Tagged(c: TermsHitCategory, hits: seq<RawHit>): seq<TermSearchHit>
  {
    seq(|hits|, k requires 0 <= k < |hits| => TermSearchHit(hits[k].name, c, hits[k].id))
  }

  /** Tagging distributes over appending one record. */
  lemma TaggedSnoc(c: TermsHitCategory, hits: seq<RawHit>, h: RawHit)
    ensures Tagged(c, hits + [h]) == Tagged(c, hits) + [TermSearchHit(h.name, c, h.id)]
  {
  }

  /** What `get_hits_for_term(term)` holds under category `c` when it returns. */
  function HitsFor(entries: seq<RawEntry>, term: string, c: TermsHitCategory): seq<TermSearchHit>
  {
    Tagged(c, HitsUnderKey(entries, term, c.Value()))
  }

  /** A member whose key is no category, holding a record the term matches: it makes the search raise. */
  predicate UnknownMatch(e: RawEntry, term: string)
  {
    TermsHitCategoryOf(e.key).None? && MatchingHits(term, e.hits) != []
  }

  /** The key of the first member, in document order, that makes the search for `term` raise. */
  function FirstUnknownKey(entries: seq<RawEntry>, term: string): Option<string>
  {
    if entries == [] then None
    else if UnknownMatch(entries[0], term) then Some(entries[0].key)
    else FirstUnknownKey(entries[1..], term)
  }

  /**
   * `FirstUnknownKey` finds nothing exactly when no member makes the search
   * raise, and otherwise the key of the first member that does.
   */
  lemma {:induction false} FirstUnknownKeySpec(entries: seq<RawEntry>, term: string)
    ensures FirstUnknownKey(entries, term).None? <==> forall k :: 0 <= k < |entries| ==> !UnknownMatch(entries[k], term)
    ensures forall k :: 0 <= k < |entries| && UnknownMatch(entries[k], term)
                        && (forall j :: 0 <= j < k ==> !UnknownMatch(entries[j], term))
                        ==> FirstUnknownKey(entries, term) == Some(entries[k].key)
  {
    if entries != [] {
      FirstUnknownKeySpec(entries[1..], term);
      assert forall k :: 1 <= k < |entries| ==> entries[k] == entries[1..][k - 1];
    }
  }

  /** The container `m` holds, under every category, the hits the members `entries` give `term`. */
  ghost predicate Groups(m: map<string, seq<TermSearchHit>>, entries: seq<RawEntry>, term: string)
  {
    forall c: TermsHitCategory :: c.Value() in m && m[c.Value()] == HitsFor(entries, term, c)
  }

  /** Tagging distributes over concatenation. */
  lemma TaggedAppend(c: TermsHitCategory, xs: seq<RawHit>, ys: seq<RawHit>)
    ensures Tagged(c, xs + ys) == Tagged(c, xs) + Tagged(c, ys)
  {
    var l, r := Tagged(c, xs + ys), Tagged(c, xs) + Tagged(c, ys);
    assert |l| == |r|;
    forall k | 0 <= k < |l| ensures l[k] == r[k] {
      if k >= |xs| {
        assert (xs + ys)[k] == ys[k - |xs|];
      }
    }
  }

  /**
   * The container after the inner loop has walked member `e`: its kept records,
   * tagged, appended to the list of its own category and to no other; nothing
   * when its key is no category.
   */
  ghost function Filed(m: map<string, seq<TermSearchHit>>, e: RawEntry, term: string): map<string, seq<TermSearchHit>>
  {
    match TermsHitCategoryOf(e.key)
    case Some(c) => if c.Value() in m then m[c.Value() := m[c.Value()] + Tagged(c, MatchingHits(term, e.hits))] else m
    case None => m
  }

  /** Filing member `i` into the groups of the members before it gives the groups of the members up to `i`. */
  lemma GroupsStep(m: map<string, seq<TermSearchHit>>, entries: seq<RawEntry>, term: string, i: nat)
    requires i < |entries| && Groups(m, entries[..i], term)
    ensures Groups(Filed(m, entries[i], term), entries[..i + 1], term)
  {
    var e := entries[i];
    assert entries[..i + 1][..i] == entries[..i];
    assert entries[..i + 1][i] == e;
    forall d: TermsHitCategory
      ensures HitsFor(entries[..i + 1], term, d)
           == HitsFor(entries[..i], term, d) + if e.key == d.Value() then Tagged(d, MatchingHits(term, e.hits)) else []
    {
      TaggedAppend(d, HitsUnderKey(entries[..i], term, d.Value()),
                   if e.key == d.Value() then MatchingHits(term, e.hits) else []);
    }
    if TermsHitCategoryOf(e.key).Some? {
      var c := TermsHitCategoryOf(e.key).value;
      forall d: TermsHitCategory | d != c ensures e.key != d.Value() {
        ValueInjective(c, d);
      }
    }
  }

  /** A hit is among the tagged records exactly when it carries `c` and the name and id of one of them. */
  lemma TaggedMember(c: TermsHitCategory, hits: seq<RawHit>, h: TermSearchHit)
    ensures h in Tagged(c, hits) <==> h.category == c && RawHit(h.name, h.id) in hits
  {
    if RawHit(h.name, h.id) in hits && h.category == c {
      var k :| 0 <= k < |hits| && hits[k] == RawHit(h.name, h.id);
      assert Tagged(c, hits)[k] == h;
    }
  }

  /**
   * In a response object, the search keeps under `c` the records of the list
   * held under `c`'s value that the term matches, in list order, each made a
   * hit of category `c`, and never more hits than that list has; it keeps
   * nothing under `c` when the object lacks that key.
   */
  lemma HitsForObject(entries: JsonObject, term: string, c: TermsHitCategory)
    ensures match Lookup(entries, c.Value())
            case Some(hits) =>
              && HitsFor(entries, term, c) == Tagged(c, MatchingHits(term, hits))
              && |HitsFor(entries, term, c)| <= |hits|
            case None => HitsFor(entries, term, c) == []
  {
    HitsUnderKeyOfObject(entries, term, c.Value());
  }

  /**
   * A hit is kept under `c` exactly when it has category `c` and the name and id
   * of a record of `c`'s list whose name contains the term, both lower-cased.
   */
  lemma HitsForMember(entries: JsonObject, term: string, c: TermsHitCategory, h: TermSearchHit)
    ensures h in HitsFor(entries, term, c) <==>
              && h.category == c
              && Lookup(entries, c.Value()).Some?
              && RawHit(h.name, h.id) in Lookup(entries, c.Value()).value
              && Matches(term, h.name)
  {
    HitsForObject(entries, term, c);
    match Lookup(entries, c.Value())
    case Some(hits) =>
      MatchingHitsMembers(term, hits);
      TaggedMember(c, MatchingHits(term, hits), h);
    case None =>
  }

  /** The decoded `/universe/ids/` response for a batch of terms (`GetIdsByTermsResult`). */
  datatype GetIdsByTermsResult = GetIdsByTermsResult(searchTerms: seq<string>, rawResult: JsonObject)
  {
    /**
     * `get_hits_for_term`: walks every member and every record of the response,
     * keeping each record whose name contains the term, both lower-cased, under
     * its member's category. Raises on the first kept record whose member key is
     * no category.
     */
    method GetHitsForTerm(searchTerm: string) returns (r: Result<TermSearchHits, Error>)
      ensures FirstUnknownKey(rawResult, searchTerm).Some? ==>
                r == Failure(InvalidCategoryValue(FirstUnknownKey(rawResult, searchTerm).value))
      ensures FirstUnknownKey(rawResult, searchTerm).None? ==> r.Success?
      ensures r.Success? ==> r.value.searchTerm == searchTerm && r.value.hits.Keys == EmptyHits().Keys
      ensures r.Success? ==> Groups(r.value.hits, rawResult, searchTerm)
    {
      var hits := new TermSearchHits(searchTerm, map[]);
      var i := 0;
      while i < |rawResult|
        invariant 0 <= i <= |rawResult|
        invariant hits.searchTerm == searchTerm && hits.hits.Keys == EmptyHits().Keys
        invariant Groups(hits.hits, rawResult[..i], searchTerm)
        invariant FirstUnknownKey(rawResult[i..], searchTerm) == FirstUnknownKey(rawResult, searchTerm)
      {
        GroupsStep(hits.hits, rawResult, searchTerm, i);
        var outcome := AddEntryHits(hits, searchTerm, rawResult[i]);
        if outcome.Fail? {
          return Failure(outcome.error);
        }
        assert rawResult[i..][1..] == rawResult[i + 1..];
        i := i + 1;
      }
      assert rawResult[..i] == rawResult;
      return Success(hits);
    }

  }

  /**
   * The inner loop of `get_hits_for_term` over one member `entry` of the
   * response: appends every record whose name contains the term to the list
   * of the member's category, and fails on the first such record when the
   * member's key names no category.
   */
  method AddEntryHits(hits: TermSearchHits, searchTerm: string, entry: RawEntry) returns (outcome: Outcome<Error>)
    requires TermsHitCategoryOf(entry.key).Some? ==> TermsHitCategoryOf(entry.key).value.Value() in hits.hits
    modifies hits
    ensures outcome.Fail? <==> UnknownMatch(entry, searchTerm)
    ensures outcome.Fail? ==> outcome.error == InvalidCategoryValue(entry.key) && hits.hits == old(hits.hits)
    ensures hits.hits.Keys == old(hits.hits).Keys
    ensures outcome.Pass? ==> hits.hits == Filed(old(hits.hits), entry, searchTerm)
  {
    var category := TermsHitCategoryOf(entry.key);
    var j := 0;
    // the records of this member filed so far, tagged with its category
    ghost var filed: seq<TermSearchHit> := [];
    assert entry.hits[..j] == [];
    if category.Some? {
      var key := category.value.Value();
      assert hits.hits[key] + filed == hits.hits[key];
    }
    while j < |entry.hits|
      invariant 0 <= j <= |entry.hits|
      invariant category.None? ==> hits.hits == old(hits.hits) && MatchingHits(searchTerm, entry.hits[..j]) == []
      invariant category.Some? ==>
                  && filed == Tagged(category.value, MatchingHits(searchTerm, entry.hits[..j]))
                  && hits.hits.Keys == old(hits.hits).Keys
                  && hits.hits[category.value.Value()] == old(hits.hits)[category.value.Value()] + filed
                  && forall key :: key in hits.hits && key != category.value.Value() ==> hits.hits[key] == old(hits.hits)[key]
    {
      var hit := entry.hits[j];
      MatchingHitsStep(searchTerm, entry.hits, j);
      if Matches(searchTerm, hit.name) {
        if category.None? {
          MatchingHitsMembers(searchTerm, entry.hits);
          assert UnknownMatch(entry, searchTerm);
          return Fail(InvalidCategoryValue(entry.key));
        }
        var c, tagged := category.value, TermSearchHit(hit.name, category.value, hit.id);
        TaggedSnoc(c, MatchingHits(searchTerm, entry.hits[..j]), hit);
        var added := hits.AddHit(c, tagged);
        assert added.Pass?;
        assert (old(hits.hits)[c.Value()] + filed) + [tagged] == old(hits.hits)[c.Value()] + (filed + [tagged]);
        filed := filed + [tagged];
      }
      j := j + 1;
      assert category.Some? ==> filed == Tagged(category.value, MatchingHits(searchTerm, entry.hits[..j]));
    }
    assert entry.hits[..j] == entry.hits;
    return Pass;
  }

  /** An entry of the `/universe/names/` response: `{id, name, category}`. */
  datatype RawName = RawName(id: int, name: string, category: string)

  /** Entry `k` is the first entry carrying `id`. */
  predicate IsFirstWithId(entries: seq<RawName>, id: int, k: int)
  {
    0 <= k < |entries| && entries[k].id == id && forall j :: 0 <= j < k ==> entries[j].id != id
  }

  /** The decoded `/universe/names/` response for a batch of ids (`GetNamesByIdsResult`). */
  datatype GetNamesByIdsResult = GetNamesByIdsResult(ids: seq<int>, rawResult: seq<RawName>)
  {
    /**
     * `get_hit_for_id`: the first entry carrying `id`, as a hit; `None` when no
     * entry carries it. Raises when that entry's category is no `IdsHitCategory`.
     */
    method GetHitForId(id: int) returns (r: Result<Option<IdSearchHit>, Error>)
      ensures r == Success(None) <==> forall k :: 0 <= k < |rawResult| ==> rawResult[k].id != id
      ensures forall k :: IsFirstWithId(rawResult, id, k) ==>
                match IdsHitCategoryOf(rawResult[k].category)
                case Some(c) => r == Success(Some(IdSearchHit(rawResult[k].name, c, id)))
                case None => r == Failure(InvalidCategoryValue(rawResult[k].category))
    {
      var i := 0;
      while i < |rawResult|
        invariant 0 <= i <= |rawResult|
        invariant forall j :: 0 <= j < i ==> rawResult[j].id != id
      {
        var entry := rawResult[i];
        if id == entry.id {
          assert IsFirstWithId(rawResult, id, i);
          var category := IdsHitCategoryOf(entry.category);
          if category.None? {
            return Failure(InvalidCategoryValue(entry.category));
          }
          return Success(Some(IdSearchHit(entry.name, category.value, entry.id)));
        }
        i := i + 1;
      }
      return Success(None);
    }
  }
}
