/**
 * What `get_systems_by_terms` computes, in `ai_agents/tools/check_route.py` and
 * in `ai_agents/tools/generate_route.py` alike: for every search term, the hits
 * the term search keeps under the `systems` category, in a dict keyed by term.
 */
module SystemSearch {
  import opened Wrappers
  import opened Seqs
  import opened Dicts
  import opened RawPayload
  import opened EsiUniverse
  import Strings

  /** The error the search raises first when the terms are searched in list order, if any. */
  function FirstFailure(raw: JsonObject, terms: seq<string>): Option<Error>
  {
    if terms == [] then None
    else
      match FirstFailure(raw, terms[..|terms| - 1])
      case Some(e) => Some(e)
      case None =>
        match FirstUnknownKey(raw, terms[|terms| - 1])
        case Some(key) => Some(InvalidCategoryValue(key))
        case None => None
  }

  /**
   * `FirstFailure` finds nothing exactly when no term's search raises, and
   * otherwise what the search of the first such term raises.
   */
  lemma {:induction false} FirstFailureSpec(raw: JsonObject, terms: seq<string>)
    ensures FirstFailure(raw, terms).None? <==> forall k :: 0 <= k < |terms| ==> FirstUnknownKey(raw, terms[k]).None?
    ensures forall k :: 0 <= k < |terms| && FirstUnknownKey(raw, terms[k]).Some?
                        && (forall j :: 0 <= j < k ==> FirstUnknownKey(raw, terms[j]).None?)
                        ==> FirstFailure(raw, terms) == Some(InvalidCategoryValue(FirstUnknownKey(raw, terms[k]).value))
  {
    if terms != [] {
      var init, last := terms[..|terms| - 1], terms[|terms| - 1];
      FirstFailureSpec(raw, init);
      assert forall k :: 0 <= k < |init| ==> init[k] == terms[k];
      forall k | 0 <= k < |terms| && FirstUnknownKey(raw, terms[k]).Some?
                 && (forall j :: 0 <= j < k ==> FirstUnknownKey(raw, terms[j]).None?)
        ensures FirstFailure(raw, terms) == Some(InvalidCategoryValue(FirstUnknownKey(raw, terms[k]).value))
      {
        if k < |init| {
          assert FirstUnknownKey(raw, init[k]).Some?;
        } else {
          assert FirstFailure(raw, init).None?;
        }
      }
    }
  }

  /** Once a prefix of the terms fails, the whole list fails the same way. */
  lemma {:induction false} FirstFailurePrefix(raw: JsonObject, terms: seq<string>, n: nat)
    requires n <= |terms| && FirstFailure(raw, terms[..n]).Some?
    ensures FirstFailure(raw, terms) == FirstFailure(raw, terms[..n])
  {
    if n < |terms| {
      var init := terms[..|terms| - 1];
      assert init[..n] == terms[..n];
      FirstFailurePrefix(raw, init, n);
    } else {
      assert terms[..n] == terms;
    }
  }

  /**
   * One turn of the loop of `get_systems_by_terms`: the term's search, then the
   * hits it keeps under `systems`; raises what the search raises.
   */
  method SystemHitsForTerm(searchResults: GetIdsByTermsResult, term: string)
    returns (r: Result<seq<TermSearchHit>, Error>)
    ensures r.Failure? <==> FirstUnknownKey(searchResults.rawResult, term).Some?
    ensures r.Failure? ==> r.error == InvalidCategoryValue(FirstUnknownKey(searchResults.rawResult, term).value)
    ensures r.Success? ==> r.value == HitsFor(searchResults.rawResult, term, Systems)
  {
    var hitsForName := searchResults.GetHitsForTerm(term);
    if hitsForName.Failure? {
      return Failure(hitsForName.error);
    }
    var systems := hitsForName.value.GetHitsForCategory(Systems);
    assert systems.Success?;
    return Success(systems.value);
  }

  /** The dict `get_systems_by_terms` returns when no search raises: each term with its system hits. */
  function SystemsByTerms(raw: JsonObject, terms: seq<string>): (d: Dict<string, seq<TermSearchHit>>)
    ensures d.Valid()
  {
    Dict(InsertionOrder(terms), map t | t in terms :: HitsFor(raw, t, Systems))
  }

  /** Storing the next term's system hits extends the dict of the terms before it. */
  lemma SystemsByTermsStep(raw: JsonObject, terms: seq<string>, i: nat)
    requires i < |terms|
    ensures SystemsByTerms(raw, terms[..i]).Put(terms[i], HitsFor(raw, terms[i], Systems))
         == SystemsByTerms(raw, terms[..i + 1])
  {
    assert terms[..i + 1] == terms[..i] + [terms[i]];
    PutOrder(SystemsByTerms(raw, terms[..i]), terms[..i], terms[i], HitsFor(raw, terms[i], Systems));
  }

  /**
   * The dict has one key per distinct term, in the order the terms first occur:
   * repeated terms collapse to one key, and distinct terms keep their order.
   */
  lemma SystemsByTermsKeys(raw: JsonObject, terms: seq<string>)
    ensures SystemsByTerms(raw, terms).entries.Keys == set t | t in terms
    ensures IsSubsequence(SystemsByTerms(raw, terms).order, terms)
    ensures var o := SystemsByTerms(raw, terms).order;
      forall i, j :: 0 <= i < j < |o| ==> OccursFirst(terms, o[i], o[j])
    ensures NoDuplicates(terms) ==> SystemsByTerms(raw, terms).order == terms
  {
    InsertionOrderSubsequence(terms);
    assert SystemsByTerms(raw, terms).order == InsertionOrder(terms);
    if NoDuplicates(terms) {
      InsertionOrderDistinct(terms);
    }
  }

  /**
   * Each term's value is the response's `systems` list filtered by the term, in
   * response order, or empty when the response has no `systems` member: a term
   * without system hits maps to an empty list rather than being left out.
   */
  lemma SystemsByTermsValue(raw: JsonObject, terms: seq<string>, t: string)
    requires t in terms
    ensures match Lookup(raw, Systems.Value())
            case Some(hits) => SystemsByTerms(raw, terms).entries[t] == Tagged(Systems, MatchingHits(t, hits))
            case None => SystemsByTerms(raw, terms).entries[t] == []
  {
    HitsForObject(raw, t, Systems);
  }

  /**
   * Every hit stored under a term is a record of the response's `systems` list,
   * name and id unchanged, with category `systems`, whose name contains the term
   * as a substring once both are lower-cased; and every such record is stored.
   */
  lemma SystemHitsMatch(raw: JsonObject, terms: seq<string>, t: string, h: TermSearchHit)
    requires t in terms
    ensures h in SystemsByTerms(raw, terms).entries[t] <==>
              && h.category == Systems
              && Lookup(raw, Systems.Value()).Some?
              && RawHit(h.name, h.id) in Lookup(raw, Systems.Value()).value
              && exists k: nat :: Strings.OccursAt(Strings.Lower(h.name), Strings.Lower(t), k)
  {
    HitsForMember(raw, t, Systems, h);
    Strings.ContainsIff(Strings.Lower(h.name), Strings.Lower(t));
  }
}
