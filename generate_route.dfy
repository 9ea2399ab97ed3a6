/** The system-name search of the route generator (`ai_agents/tools/generate_route.py`). */
module GenerateRoute {
  import opened Wrappers
  import opened Dicts
  import opened RawPayload
  import opened EsiUniverse
  import opened SystemSearch

  /**
   * `get_systems_by_terms`: searches the `/universe/ids/` response `raw` for each
   * term in turn and stores the term's system hits under it, with no further
   * check: a term with several system hits keeps all of them. Raises what the
   * first failing search raises.
   */
  method GetSystemsByTerms(searchTerms: seq<string>, raw: JsonObject)
    returns (r: Result<Dict<string, seq<TermSearchHit>>, Error>)
    ensures r.Failure? <==> FirstFailure(raw, searchTerms).Some?
    ensures r.Failure? ==> r.error == FirstFailure(raw, searchTerms).value
    ensures r.Success? ==> r.value == SystemsByTerms(raw, searchTerms)
  {
    var searchResults := GetIdsByTermsResult(searchTerms, raw);
    var systemIds := Dicts.Empty();
    var i := 0;
    while i < |searchTerms|
      invariant 0 <= i <= |searchTerms|
      invariant systemIds == SystemsByTerms(raw, searchTerms[..i])
      invariant FirstFailure(raw, searchTerms[..i]).None?
    {
      var systemName := searchTerms[i];
      var systems := SystemHitsForTerm(searchResults, systemName);
      assert searchTerms[..i + 1][..i] == searchTerms[..i];
      if systems.Failure? {
        FirstFailurePrefix(raw, searchTerms, i + 1);
        return Failure(systems.error);
      }
      SystemsByTermsStep(raw, searchTerms, i);
      systemIds := systemIds.Put(systemName, systems.value);
      i := i + 1;
    }
    assert searchTerms[..i] == searchTerms;
    return Success(systemIds);
  }
}
