/**
 * The decoded response of the `/universe/ids/` endpoint, which maps each category
 * name to a list of `{name, id}` records, and the client-side term filter applied to it.
 */
module RawPayload {
  import opened Wrappers
  import opened Seqs
  import Strings

  /** One `{name, id}` record of a category's list. */
  datatype RawHit = RawHit(name: string, id: int)

  /** One `category: [...]` member of the response object. */
  datatype RawEntry = RawEntry(key: string, hits: seq<RawHit>)

  /** No two members share a key. */
  predicate DistinctKeys(entries: seq<RawEntry>)
  {
    forall i, j :: 0 <= i < j < |entries| ==> entries[i].key != entries[j].key
  }

  /** The response object, its members in document order (the order a Python dict iterates them). */
  type JsonObject = entries: seq<RawEntry> | DistinctKeys(entries) witness []

  /** The list the response object holds under `key`, if it has that key. */
  function Lookup(entries: seq<RawEntry>, key: string): (r: Option<seq<RawHit>>)
    ensures r.Some? ==> RawEntry(key, r.value) in entries
    ensures r.None? ==> forall e :: e in entries ==> e.key != key
  {
    if entries == [] then None
    else
      var last := entries[|entries| - 1];
      assert entries == entries[..|entries| - 1] + [last];
      if last.key == key then Some(last.hits) else Lookup(entries[..|entries| - 1], key)
  }

  /** In an object, looking up a member's key finds that member's list. */
  lemma {:induction false} LookupMember(entries: JsonObject, e: RawEntry)
    requires e in entries
    ensures Lookup(entries, e.key) == Some(e.hits)
  {
    var init, last := entries[..|entries| - 1], entries[|entries| - 1];
    assert entries == init + [last];
    if last.key != e.key {
      LookupMember(init, e);
    }
  }

  /** In an object, every member's key finds that member's list. */
  lemma LookupMembers(entries: JsonObject)
    ensures forall e :: e in entries ==> Lookup(entries, e.key) == Some(e.hits)
  {
    forall e | e in entries ensures Lookup(entries, e.key) == Some(e.hits) {
      LookupMember(entries, e);
    }
  }

  /**
   * Python's `==` on two response objects: the same keys, with equal lists under
   * each key, whatever order the members come in.
   */
  predicate SameObject(a: JsonObject, b: JsonObject): (r: bool)
    ensures a == b ==> r
  {
    LookupMembers(a);
    && (forall e :: e in a ==> Lookup(b, e.key) == Some(e.hits))
    && (forall e :: e in b ==> Lookup(a, e.key) == Some(e.hits))
  }

  /** Two response objects are `==` exactly when every key looks up the same in both. */
  lemma SameObjectIff(a: JsonObject, b: JsonObject)
    ensures SameObject(a, b) <==> forall key :: Lookup(a, key) == Lookup(b, key)
  {
    if SameObject(a, b) {
      forall key ensures Lookup(a, key) == Lookup(b, key) {
        if Lookup(a, key).Some? {
          LookupMember(a, RawEntry(key, Lookup(a, key).value));
        } else if Lookup(b, key).Some? {
          LookupMember(b, RawEntry(key, Lookup(b, key).value));
        }
      }
    } else if e :| e in a && Lookup(b, e.key) != Some(e.hits) {
      LookupMember(a, e);
    } else {
      var e :| e in b && Lookup(a, e.key) != Some(e.hits);
      LookupMember(b, e);
    }
  }

  /** Objects in which every key looks up the same hold the same members, whatever their order. */
  lemma SameLookupsSameMembers(x: JsonObject, y: JsonObject)
    requires forall key :: Lookup(x, key) == Lookup(y, key)
    ensures forall e :: e in x ==> e in y
  {
    forall e | e in x ensures e in y {
      LookupMember(x, e);
    }
  }

  /** The test `search_term.lower() in hit["name"].lower()`. */
  predicate Matches(term: string, name: string): (r: bool)
    ensures term == [] ==> r
    ensures r ==> |term| <= |name|
  {
    Strings.Contains(Strings.Lower(name), Strings.Lower(term))
  }

  /** The records of one list that the filter keeps, in list order. */
  function MatchingHits(term: string, hits: seq<RawHit>): (r: seq<RawHit>)
    ensures |r| <= |hits|
  {
    if hits == [] then []
    else
      var r := MatchingHits(term, hits[..|hits| - 1]);
      if Matches(term, hits[|hits| - 1].name) then r + [hits[|hits| - 1]] else r
  }

  /** The kept records are the list with some records deleted: the filter keeps list order. */
  lemma {:induction false} MatchingHitsSubsequence(term: string, hits: seq<RawHit>)
    ensures IsSubsequence(MatchingHits(term, hits), hits)
  {
    if hits != [] {
      var init, last := hits[..|hits| - 1], hits[|hits| - 1];
      var r := MatchingHits(term, init);
      MatchingHitsSubsequence(term, init);
      if Matches(term, last.name) {
        assert (r + [last])[..|r|] == r;
      }
    }
  }

  /** The filter keeps exactly the records whose name contains the term, both lower-cased. */
  lemma {:induction false} MatchingHitsMembers(term: string, hits: seq<RawHit>)
    ensures forall h :: h in MatchingHits(term, hits) <==> h in hits && Matches(term, h.name)
  {
    if hits != [] {
      var init, last := hits[..|hits| - 1], hits[|hits| - 1];
      MatchingHitsMembers(term, init);
      assert hits == init + [last];
    }
  }

  /** Filtering one more record of a list keeps it or drops it. */
  lemma MatchingHitsStep(term: string, hits: seq<RawHit>, j: nat)
    requires j < |hits|
    ensures Matches(term, hits[j].name) ==> MatchingHits(term, hits[..j + 1]) == MatchingHits(term, hits[..j]) + [hits[j]]
    ensures !Matches(term, hits[j].name) ==> MatchingHits(term, hits[..j + 1]) == MatchingHits(term, hits[..j])
  {
    assert hits[..j + 1][..j] == hits[..j];
  }

  /**
   * The kept records of every member whose key is `key`, member after member, in
   * document order: what the filtering loop appends under that key.
   */
  function HitsUnderKey(entries: seq<RawEntry>, term: string, key: string): (r: seq<RawHit>)
    ensures forall h :: h in r ==> Matches(term, h.name)
  {
    if entries == [] then []
    else
      var last := entries[|entries| - 1];
      MatchingHitsMembers(term, last.hits);
      HitsUnderKey(entries[..|entries| - 1], term, key)
        + (if last.key == key then MatchingHits(term, last.hits) else [])
  }

  /** In an object, the hits under a key are the kept records of that key's one list. */
  lemma {:induction false} HitsUnderKeyOfObject(entries: JsonObject, term: string, key: string)
    ensures HitsUnderKey(entries, term, key)
         == match Lookup(entries, key)
            case Some(hits) => MatchingHits(term, hits)
            case None => []
  {
    if entries != [] {
      var init, last := entries[..|entries| - 1], entries[|entries| - 1];
      HitsUnderKeyOfObject(init, term, key);
      if last.key == key {
        assert Lookup(init, key).None? by {
          forall e | e in init ensures e.key != key {
            var i :| 0 <= i < |init| && init[i] == e;
            assert entries[i].key != entries[|entries| - 1].key;
          }
        }
      }
    }
  }
}
