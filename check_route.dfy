/**
 * The route check (`ai_agents/tools/check_route.py`): every system name must
 * match exactly one solar system; otherwise every name is classified first
 * and a single `AmbiguousRouteError` reports the names with several matches
 * and the names with none.
 */
module CheckRoute {
  import opened Wrappers
  import opened Seqs
  import opened Dicts
  import opened RawPayload
  import opened EsiUniverse
  import opened SystemSearch

  /** The first line of every `AmbiguousRouteError` message. */
  const AmbiguousRoute: string := "Ambiguous route."

  /** The line introducing the names with several system hits. */
  const MultipleMatchesLine: string := "\nThe following named systems had multiple matches: "

  /** The line introducing the names with no system hit. */
  const NoMatchesLine: string := "\nThe following named systems had no matches: "

  /** A piece of the error message: literal text, or the `str(...)` of one of the two collections. */
  datatype MessagePart =
    | Text(text: string)
    | HitsRepr(hits: Dict<string, seq<TermSearchHit>>)
    | NamesRepr(names: seq<string>)

  /** `AmbiguousRouteError`: the exception keeps nothing but its message. */
  datatype AmbiguousRouteError = AmbiguousRouteError(message: seq<MessagePart>)

  /** What `check_route` raises: the search's own error, or the ambiguity. */
  datatype RouteError =
    | SearchFailed(cause: Error)
    | Ambiguous(ambiguity: AmbiguousRouteError)

  /** The message of an `AmbiguousRouteError` over these collections. */
  function Message(ambiguousHits: Dict<string, seq<TermSearchHit>>, systemsNotFound: seq<string>): seq<MessagePart>
  {
    [Text(AmbiguousRoute)]
      + (if ambiguousHits.entries != map[] then [Text(MultipleMatchesLine), HitsRepr(ambiguousHits)] else [])
      + (if systemsNotFound != [] then [Text(NoMatchesLine), NamesRepr(systemsNotFound)] else [])
  }

  /**
   * The message starts with "Ambiguous route."; it has the multiple-matches line,
   * followed by the ambiguous hits, exactly when there are ambiguous hits, and
   * the no-matches line, followed by the names, exactly when some name has no
   * match, in that order.
   */
  lemma MessageShape(ambiguousHits: Dict<string, seq<TermSearchHit>>, systemsNotFound: seq<string>)
    ensures var m := Message(ambiguousHits, systemsNotFound);
            && m[0] == Text(AmbiguousRoute)
            && (Text(MultipleMatchesLine) in m <==> ambiguousHits.entries != map[])
            && (Text(NoMatchesLine) in m <==> systemsNotFound != [])
            && (ambiguousHits.entries != map[] ==> m[1..3] == [Text(MultipleMatchesLine), HitsRepr(ambiguousHits)])
            && (systemsNotFound != [] ==> m[|m| - 2..] == [Text(NoMatchesLine), NamesRepr(systemsNotFound)])
  {
    var m := Message(ambiguousHits, systemsNotFound);
    assert AmbiguousRoute != MultipleMatchesLine && AmbiguousRoute != NoMatchesLine;
    assert MultipleMatchesLine != NoMatchesLine by {
      assert MultipleMatchesLine[33] != NoMatchesLine[33];
    }
  }

  /** `AmbiguousRouteError.__init__`: the message, built one line at a time. */
  method NewAmbiguousRouteError(ambiguousHits: Dict<string, seq<TermSearchHit>>, systemsNotFound: seq<string>)
    returns (e: AmbiguousRouteError)
    ensures e.message == Message(ambiguousHits, systemsNotFound)
  {
    var message := [Text(AmbiguousRoute)];
    if ambiguousHits.entries != map[] {
      message := message + [Text(MultipleMatchesLine), HitsRepr(ambiguousHits)];
    }
    if systemsNotFound != [] {
      message := message + [Text(NoMatchesLine), NamesRepr(systemsNotFound)];
    }
    return AmbiguousRouteError(message);
  }

  /**
   * `ambiguous_hits` once the names `keys` are classified: the names with more
   * than one system hit, each with all of its hits, in `keys` order.
   */
  function AmbiguousHits(systems: map<string, seq<TermSearchHit>>, keys: seq<string>): (a: Dict<string, seq<TermSearchHit>>)
    ensures a.Valid()
    ensures forall t :: t in a.entries <==> t in keys && t in systems && |systems[t]| > 1
    ensures forall t :: t in a.entries ==> a.entries[t] == systems[t]
  {
    if keys == [] then Dicts.Empty()
    else
      var init, last := keys[..|keys| - 1], keys[|keys| - 1];
      var a := AmbiguousHits(systems, init);
      assert keys == init + [last];
      if last in systems && |systems[last]| > 1 then a.Put(last, systems[last]) else a
  }

  /** The ambiguous names keep the order of `keys`. */
  lemma {:induction false} AmbiguousHitsOrder(systems: map<string, seq<TermSearchHit>>, keys: seq<string>)
    ensures IsSubsequence(AmbiguousHits(systems, keys).order, keys)
  {
    if keys != [] {
      var init, last := keys[..|keys| - 1], keys[|keys| - 1];
      var a := AmbiguousHits(systems, init);
      AmbiguousHitsOrder(systems, init);
      if last in systems && |systems[last]| > 1 && last !in a.entries {
        assert a.Put(last, systems[last]).order[..|a.order|] == a.order;
      }
    }
  }

  /** `systems_not_found` once the names `keys` are classified: the names with no system hit, in `keys` order. */
  function SystemsNotFound(systems: map<string, seq<TermSearchHit>>, keys: seq<string>): (r: seq<string>)
    ensures forall t :: t in r <==> t in keys && t in systems && |systems[t]| == 0
    ensures IsSubsequence(r, keys)
  {
    if keys == [] then []
    else
      var init, last := keys[..|keys| - 1], keys[|keys| - 1];
      var r := SystemsNotFound(systems, init);
      assert keys == init + [last];
      if last in systems && |systems[last]| == 0 then
        assert (r + [last])[..|r|] == r;
        r + [last]
      else r
  }

  /**
   * Classifying the dict of a successful search: a name is ambiguous, with all
   * of its hits, exactly when it has more than one system hit; it is not found
   * exactly when it has none; a name with exactly one hit is in neither.
   */
  lemma Classification(raw: JsonObject, terms: seq<string>, t: string)
    ensures var s := SystemsByTerms(raw, terms);
            var a := AmbiguousHits(s.entries, s.order);
            && (t in a.entries <==> t in terms && |HitsFor(raw, t, Systems)| > 1)
            && (t in a.entries ==> a.entries[t] == HitsFor(raw, t, Systems))
            && (t in SystemsNotFound(s.entries, s.order) <==> t in terms && HitsFor(raw, t, Systems) == [])
  {
  }

  /** The check raises exactly when some name does not have exactly one system hit. */
  lemma RaisesIffNotExactlyOne(raw: JsonObject, terms: seq<string>)
    ensures var s := SystemsByTerms(raw, terms);
            (AmbiguousHits(s.entries, s.order).entries != map[] || SystemsNotFound(s.entries, s.order) != [])
            <==> exists t :: t in terms && |HitsFor(raw, t, Systems)| != 1
  {
    var s := SystemsByTerms(raw, terms);
    var a, notFound := AmbiguousHits(s.entries, s.order), SystemsNotFound(s.entries, s.order);
    if a.entries != map[] {
      var t :| t in a.entries;
      assert t in terms && |HitsFor(raw, t, Systems)| != 1;
    } else if notFound != [] {
      assert notFound[0] in notFound;
      assert notFound[0] in terms && |HitsFor(raw, notFound[0], Systems)| != 1;
    }
    if t :| t in terms && |HitsFor(raw, t, Systems)| != 1 {
      assert t in s.order;
      if |HitsFor(raw, t, Systems)| > 1 {
        assert t in a.entries;
      } else {
        assert t in notFound;
      }
    }
  }

  /** `get_systems_by_terms` of this module: the same search as the route generator's. */
  method GetSystemsByTerms(searchTerms: seq<string>, raw: JsonObject)
    returns (r: Result<Dict<string, seq<TermSearchHit>>, Error>)
    ensures r.Failure? <==> FirstFailure(raw, searchTerms).Some?
    ensures r.Failure? ==> r.error == FirstFailure(raw, searchTerms).value
    ensures r.Success? ==> r.value == SystemsByTerms(raw, searchTerms)
  {
    var searchResults := GetIdsByTermsResult(searchTerms, raw);
    var systems := Dicts.Empty();
    var i := 0;
    while i < |searchTerms|
      invariant 0 <= i <= |searchTerms|
      invariant systems == SystemsByTerms(raw, searchTerms[..i])
      invariant FirstFailure(raw, searchTerms[..i]).None?
    {
      var searchTerm := searchTerms[i];
      var hits := SystemHitsForTerm(searchResults, searchTerm);
      assert searchTerms[..i + 1][..i] == searchTerms[..i];
      if hits.Failure? {
        FirstFailurePrefix(raw, searchTerms, i + 1);
        return Failure(hits.error);
      }
      SystemsByTermsStep(raw, searchTerms, i);
      systems := systems.Put(searchTerm, hits.value);
      i := i + 1;
    }
    assert searchTerms[..i] == searchTerms;
    return Success(systems);
  }

  /** Classifying one more name adds it to the collection its number of hits calls for. */
  lemma ClassifyStep(systems: map<string, seq<TermSearchHit>>, keys: seq<string>, i: nat)
    requires i < |keys| && keys[i] in systems
    ensures AmbiguousHits(systems, keys[..i + 1])
         == if |systems[keys[i]]| > 1 then AmbiguousHits(systems, keys[..i]).Put(keys[i], systems[keys[i]])
            else AmbiguousHits(systems, keys[..i])
    ensures SystemsNotFound(systems, keys[..i + 1])
         == SystemsNotFound(systems, keys[..i]) + if |systems[keys[i]]| == 0 then [keys[i]] else []
  {
    assert keys[..i + 1][..i] == keys[..i];
  }

  /**
   * The classification loop of `check_route`: walks the dict in its order and
   * sorts out the names with several system hits and the names with none.
   */
  method Classify(systems: Dict<string, seq<TermSearchHit>>)
    returns (ambiguousHits: Dict<string, seq<TermSearchHit>>, systemsNotFound: seq<string>)
    requires systems.Valid()
    ensures ambiguousHits == AmbiguousHits(systems.entries, systems.order)
    ensures systemsNotFound == SystemsNotFound(systems.entries, systems.order)
  {
    ambiguousHits := Dicts.Empty();
    systemsNotFound := [];
    var i := 0;
    while i < |systems.order|
      invariant 0 <= i <= |systems.order|
      invariant ambiguousHits == AmbiguousHits(systems.entries, systems.order[..i])
      invariant systemsNotFound == SystemsNotFound(systems.entries, systems.order[..i])
    {
      var systemName := systems.order[i];
      var systemHits := systems.entries[systemName];
      ClassifyStep(systems.entries, systems.order, i);
      if |systemHits| > 1 {
        ambiguousHits := ambiguousHits.Put(systemName, systemHits);
      } else if |systemHits| == 0 {
        systemsNotFound := systemsNotFound + [systemName];
      }
      i := i + 1;
    }
    assert systems.order[..i] == systems.order;
  }

  /**
   * `check_route`: searches the names, classifies every one of them by its
   * number of system hits, raises one `AmbiguousRouteError` if any name has
   * several or none, and otherwise searches again and returns that dict.
   */
  method Check(systemNames: seq<string>, raw: JsonObject)
    returns (r: Result<Dict<string, seq<TermSearchHit>>, RouteError>)
    ensures FirstFailure(raw, systemNames).Some? ==> r == Failure(SearchFailed(FirstFailure(raw, systemNames).value))
    ensures FirstFailure(raw, systemNames).None? ==>
              var systems := SystemsByTerms(raw, systemNames);
              var ambiguousHits := AmbiguousHits(systems.entries, systems.order);
              var systemsNotFound := SystemsNotFound(systems.entries, systems.order);
              if ambiguousHits.entries != map[] || systemsNotFound != [] then
                r == Failure(Ambiguous(AmbiguousRouteError(Message(ambiguousHits, systemsNotFound))))
              else
                r == Success(systems)
  {
    var systems := GetSystemsByTerms(systemNames, raw);
    if systems.Failure? {
      return Failure(SearchFailed(systems.error));
    }
    var ambiguousHits, systemsNotFound := Classify(systems.value);
    if ambiguousHits.entries != map[] || systemsNotFound != [] {
      var e := NewAmbiguousRouteError(ambiguousHits, systemsNotFound);
      return Failure(Ambiguous(e));
    }
    var again := GetSystemsByTerms(systemNames, raw);
    return Success(again.value);
  }
}
