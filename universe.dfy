/**
 * The older term-search client (`ai_agents/tools/universe_calls.py`): the same
 * client-side filtering of the `/universe/ids/` response as the ESI client,
 * with Python equality defined field by field on its result classes.
 */
module Universe {
  import opened Wrappers
  import opened RawPayload
  import opened EsiUniverse

  /**
   * `HitCategory`: the same ten members with the same values as the ESI
   * client's `TermsHitCategory`, so the two share one datatype.
   */
  type HitCategory = TermsHitCategory

  /** `GetIdsByTermHit`: a hit's name, category and id, as in the ESI client. */
  type GetIdsByTermHit = TermSearchHit

  /** `GetIdsByTermHit.__eq__`: equal name, category and id; the same as equality of the values. */
  function HitEq(a: GetIdsByTermHit, b: GetIdsByTermHit): (r: bool)
    ensures r <==> a == b
  {
    a.name == b.name && a.category == b.category && a.id == b.id
  }

  /** `GetIdsByTermHit.__ne__`: the negation of `__eq__`. */
  function HitNe(a: GetIdsByTermHit, b: GetIdsByTermHit): (r: bool)
    ensures r <==> a != b
  {
    !HitEq(a, b)
  }

  /** Python's `==` on two lists of hits: equal lengths and `__eq__` position by position. */
  function HitListEq(xs: seq<GetIdsByTermHit>, ys: seq<GetIdsByTermHit>): (r: bool)
    ensures r <==> xs == ys
  {
    if xs == [] || ys == [] then xs == ys
    else
      assert xs == [xs[0]] + xs[1..] && ys == [ys[0]] + ys[1..];
      HitEq(xs[0], ys[0]) && HitListEq(xs[1..], ys[1..])
  }

  /** Python's `==` on two hit dicts: the same keys, and `==` lists under each. */
  function HitsMapEq(a: map<string, seq<GetIdsByTermHit>>, b: map<string, seq<GetIdsByTermHit>>): (r: bool)
    ensures r <==> a == b
  {
    a.Keys == b.Keys && forall key :: key in a ==> HitListEq(a[key], b[key])
  }

  /** The hits found for one search term, by category value (`GetIdsByTermHits`). */
  class GetIdsByTermHits {
    const searchTerm: string
    var hits: map<string, seq<GetIdsByTermHit>>

    /** A container over `hits`; an absent or empty `hits` (both falsy) gives every category an empty list. */
    constructor (searchTerm: string, hits: map<string, seq<GetIdsByTermHit>>)
      ensures this.searchTerm == searchTerm
      ensures hits == map[] ==> this.hits == EmptyHits()
      ensures hits != map[] ==> this.hits == hits
    {
      this.searchTerm := searchTerm;
      this.hits := if hits != map[] then hits else EmptyHits();
    }

    /** `add_hit`: append `hit` to its category's list; raise when the container has no such key. */
    method AddHit(category: HitCategory, hit: GetIdsByTermHit) returns (outcome: Outcome<Error>)
      modifies this
      ensures outcome.Pass? <==> category.Value() in old(hits)
      ensures outcome.Fail? ==> outcome.error == UnknownCategory(category) && hits == old(hits)
      ensures outcome.Pass? ==> hits == old(hits)[category.Value() := old(hits)[category.Value()] + [hit]]
      ensures hits.Keys == old(hits).Keys
    {
      var key := category.Value();
      if key in hits {
        hits := hits[key := hits[key] + [hit]];
        outcome := Pass;
      } else {
        outcome := Fail(UnknownCategory(category));
      }
    }

    /** `get_hits`: the list stored under the category, or a `KeyError`. */
    function GetHits(category: HitCategory): (r: Result<seq<GetIdsByTermHit>, Error>)
      reads this
      ensures r.Success? <==> category.Value() in hits
      ensures r.Success? ==> r.value == hits[category.Value()]
      ensures r.Failure? ==> r.error == MissingCategoryKey(category.Value())
    {
      var key := category.Value();
      if key in hits then Success(hits[key]) else Failure(MissingCategoryKey(key))
    }

    /** `__eq__`: the same search term, and `==` hit dicts. */
    function Equals(other: GetIdsByTermHits): (r: bool)
      reads this, other
      ensures r <==> searchTerm == other.searchTerm && hits == other.hits
    {
      searchTerm == other.searchTerm && HitsMapEq(hits, other.hits)
    }

    /** `__ne__`: the negation of `__eq__`. */
    function NotEquals(other: GetIdsByTermHits): (r: bool)
      reads this, other
      ensures r <==> searchTerm != other.searchTerm || hits != other.hits
    {
      !Equals(other)
    }
  }

  /** The decoded `/universe/ids/` response for a batch of terms (`GetIdsByTermsResult`). */
  datatype GetIdsByTermsResult = GetIdsByTermsResult(searchTerms: seq<string>, rawResult: JsonObject)
  {
    /**
     * `get_hits`: walks every member and every record of the response, keeping
     * each record whose name contains the term, both lower-cased, under its
     * member's category. Raises on the first kept record whose member key is no
     * category.
     */
    method GetHits(searchTerm: string) returns (r: Result<GetIdsByTermHits, Error>)
      ensures FirstUnknownKey(rawResult, searchTerm).Some? ==>
                r == Failure(InvalidCategoryValue(FirstUnknownKey(rawResult, searchTerm).value))
      ensures FirstUnknownKey(rawResult, searchTerm).None? ==> r.Success?
      ensures r.Success? ==> r.value.searchTerm == searchTerm && r.value.hits.Keys == EmptyHits().Keys
      ensures r.Success? ==> Groups(r.value.hits, rawResult, searchTerm)
    {
      var hits := new GetIdsByTermHits(searchTerm, map[]);
      var i := 0;
      while i < |rawResult|
        invariant 0 <= i <= |rawResult|
        invariant hits.searchTerm == searchTerm && hits.hits.Keys == EmptyHits().Keys
        invariant Groups(hits.hits, rawResult[..i], searchTerm)
        invariant FirstUnknownKey(rawResult[i..], searchTerm) == FirstUnknownKey(rawResult, searchTerm)
      {
        GroupsStep(hits.hits, rawResult, searchTerm, i);
        var outcome := AddMemberHits(hits, searchTerm, rawResult[i]);
        if outcome.Fail? {
          return Failure(outcome.error);
        }
        assert rawResult[i..][1..] == rawResult[i + 1..];
        i := i + 1;
      }
      assert rawResult[..i] == rawResult;
      return Success(hits);
    }

    /** `__eq__`: the same term list, and response objects that are `==` (same keys, equal lists, any order). */
    function Equals(other: GetIdsByTermsResult): (r: bool)
      ensures r <==> searchTerms == other.searchTerms
                     && forall key :: Lookup(rawResult, key) == Lookup(other.rawResult, key)
    {
      SameObjectIff(rawResult, other.rawResult);
      searchTerms == other.searchTerms && SameObject(rawResult, other.rawResult)
    }

    /** `__ne__`: the negation of `__eq__`. */
    function NotEquals(other: GetIdsByTermsResult): (r: bool)
      ensures r <==> !(searchTerms == other.searchTerms
                       && forall key :: Lookup(rawResult, key) == Lookup(other.rawResult, key))
    {
      SameObjectIff(rawResult, other.rawResult);
      !Equals(other)
    }
  }

  /**
   * The inner loop of `get_hits` over one member `entry` of the
   * response: appends every record whose name contains the term to the list
   * of the member's category, and fails on the first such record when the
   * member's key names no category.
   */
  method AddMemberHits(hits: GetIdsByTermHits, searchTerm: string, entry: RawEntry) returns (outcome: Outcome<Error>)
    requires TermsHitCategoryOf(entry.key).Some? ==> TermsHitCategoryOf(entry.key).value.Value() in hits.hits
    modifies hits
    ensures outcome.Fail? <==> UnknownMatch(entry, searchTerm)
    ensures outcome.Fail? ==> outcome.error == InvalidCategoryValue(entry.key) && hits.hits == old(hits.hits)
    ensures hits.hits.Keys == old(hits.hits).Keys
    ensures outcome.Pass? ==> hits.hits == Filed(old(hits.hits), entry, searchTerm)
  {
    var category := TermsHitCategoryOf(entry.key);
    var j := 0;
    // the records of this member filed so far, tagged with its category
    ghost var filed: seq<TermSearchHit> := [];
    assert entry.hits[..j] == [];
    if category.Some? {
      var key := category.value.Value();
      assert hits.hits[key] + filed == hits.hits[key];
    }
    while j < |entry.hits|
      invariant 0 <= j <= |entry.hits|
      invariant category.None? ==> hits.hits == old(hits.hits) && MatchingHits(searchTerm, entry.hits[..j]) == []
      invariant category.Some? ==>
                  && filed == Tagged(category.value, MatchingHits(searchTerm, entry.hits[..j]))
                  && hits.hits.Keys == old(hits.hits).Keys
                  && hits.hits[category.value.Value()] == old(hits.hits)[category.value.Value()] + filed
                  && forall key :: key in hits.hits && key != category.value.Value() ==> hits.hits[key] == old(hits.hits)[key]
    {
      var hit := entry.hits[j];
      MatchingHitsStep(searchTerm, entry.hits, j);
      if Matches(searchTerm, hit.name) {
        if category.None? {
          MatchingHitsMembers(searchTerm, entry.hits);
          assert UnknownMatch(entry, searchTerm);
          return Fail(InvalidCategoryValue(entry.key));
        }
        var c, tagged := category.value, TermSearchHit(hit.name, category.value, hit.id);
        TaggedSnoc(c, MatchingHits(searchTerm, entry.hits[..j]), hit);
        var added := hits.AddHit(c, tagged);
        assert added.Pass?;
        assert (old(hits.hits)[c.Value()] + filed) + [tagged] == old(hits.hits)[c.Value()] + (filed + [tagged]);
        filed := filed + [tagged];
      }
      j := j + 1;
      assert category.Some? ==> filed == Tagged(category.value, MatchingHits(searchTerm, entry.hits[..j]));
    }
    assert entry.hits[..j] == entry.hits;
    return Pass;
  }

  /**
   * Results that are `==` give every term the same hits: the search of one
   * raises exactly when the search of the other does, and otherwise both keep
   * the same hits under every category. Which unknown key is reported may
   * differ, since `==` ignores the order of the members.
   */
  lemma EqualResultsSameHits(a: GetIdsByTermsResult, b: GetIdsByTermsResult, term: string)
    requires a.Equals(b)
    ensures FirstUnknownKey(a.rawResult, term).None? <==> FirstUnknownKey(b.rawResult, term).None?
    ensures forall c: HitCategory :: HitsFor(a.rawResult, term, c) == HitsFor(b.rawResult, term, c)
  {
    forall c: HitCategory ensures HitsFor(a.rawResult, term, c) == HitsFor(b.rawResult, term, c) {
      HitsForObject(a.rawResult, term, c);
      HitsForObject(b.rawResult, term, c);
      assert Lookup(a.rawResult, c.Value()) == Lookup(b.rawResult, c.Value());
    }
    SameLookupsSameMembers(a.rawResult, b.rawResult);
    SameLookupsSameMembers(b.rawResult, a.rawResult);
    FirstUnknownKeySpec(a.rawResult, term);
    FirstUnknownKeySpec(b.rawResult, term);
  }
}
