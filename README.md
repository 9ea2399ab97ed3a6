# Term search and route check of the EVE Online agent tools

This project models, in Dafny, the client-side logic of the agent tools that talk to the EVE Online ESI API.

- **Term search.** The `/universe/ids/` endpoint answers a batch of search terms with an object mapping each category name (`"systems"`, `"regions"`, …) to a list of `{name, id}` records. For one term, `get_hits_for_term` keeps every record whose lower-cased name contains the lower-cased term. It files the kept record under its category in a `TermSearchHits` container. The container starts with all ten categories, each holding an empty list. A kept record under a key that is not a category raises `ValueError`.
- **The older client.** `ai_agents/tools/universe_calls.py` does the same search with its own classes, plus field-by-field `__eq__`/`__ne__`.
- **Id lookup.** `get_hit_for_id` returns the first `/universe/names/` entry carrying an id, or `None` when no entry carries it.
- **System search and route check.** `get_systems_by_terms` maps every term to its hits in the `systems` category. `check_route` classifies every term: several system hits make it ambiguous, none makes it not found. It then raises one `AmbiguousRouteError`, whose message depends on which of the two collections is non-empty. Otherwise it returns the map.

## Modules

- `Wrappers`: `Option`, `Result`, and `Outcome`, which stands in for a call that returns nothing or raises.
- `Strings`: ASCII lower-casing and Python's substring test `needle in haystack`.
- `Seqs`: the subsequence, no-duplicates and first-occurrence predicates the rest states its order facts with.
- `Dicts`: Python dicts whose iteration order matters, as a map together with its insertion order.
- `RawPayload`: the `/universe/ids/` response and the term filter. The response is a sequence of `(key, records)` members with distinct keys, in document order. Python dicts iterate in that order, and that order decides which unknown key raises first.
- `EsiUniverse`: `ai_agents/tools/esi/universe_calls.py`. It contains the category enums, `TermSearchHits` (a class whose `hits` map `AddHit` updates in place), the nested search loop, and the id lookup loop.
- `Universe`: `ai_agents/tools/universe_calls.py`, the older client, including its equality methods.
- `SystemSearch`: what `get_systems_by_terms` computes, and its properties.
- `GenerateRoute`, `CheckRoute`: `ai_agents/tools/generate_route.py` and `ai_agents/tools/check_route.py`.

Where a method loops, it is proved against a specification function:
- `HitsFor`, `Groups` and `Filed` specify the term search;
- `SystemsByTerms` and `FirstFailure` specify the system search;
- `AmbiguousHits`, `SystemsNotFound` and `Message` specify the route check.

The properties the code promises are lemmas about those functions.

The HTTP calls are not modelled. The decoded response body is a parameter: `rawResult` of `GetIdsByTermsResult`, and `raw` of the system searches.

`check_route.py` and `generate_route.py` import `GetIdsByTermHit` and `HitCategory` from `tools/esi/universe_calls.py`, which defines neither name. They also call `get_hits_for_term`, which exists only in that module. The model follows the code these functions call: the ESI client's `TermSearchHit` and `TermsHitCategory.SYSTEMS`.

## Model

| member | source | states |
|---|---|---|
| EsiUniverse.TermsHitCategoryOf | ai_agents/tools/esi/universe_calls.py:39-49 | `TermsHitCategory(value)`: when it returns a member, that member has the value; it returns nothing (Python raises) only when no member has the value |
| EsiUniverse.TermsHitCategoryRoundTrip | ai_agents/tools/esi/universe_calls.py:39-49 | every member is recovered from its value |
| EsiUniverse.ValueInjective | ai_agents/tools/esi/universe_calls.py:39-49 | distinct members have distinct values |
| EsiUniverse.IdsHitCategoryOf | ai_agents/tools/esi/universe_calls.py:132-141 | `IdsHitCategory(value)`: the member with that value, or nothing (Python raises) when no member has it |
| EsiUniverse.IdsHitCategoryRoundTrip | ai_agents/tools/esi/universe_calls.py:132-141 | every name-lookup category is recovered from its value |
| EsiUniverse.EmptyHits | ai_agents/tools/esi/universe_calls.py:66 | the default hits map has a key for every category, each mapped to an empty list, and no other key |
| EsiUniverse.EmptyHitsKeys | ai_agents/tools/esi/universe_calls.py:66 | the default map's keys are exactly the values of the enum's members, taken over the member list; this follows from the two ensures of `EmptyHits` |
| EsiUniverse.TermSearchHits.constructor | ai_agents/tools/esi/universe_calls.py:64-66 | a container over an empty map gets the ten empty lists; a non-empty map is kept as given |
| EsiUniverse.TermSearchHits.AddHit | ai_agents/tools/esi/universe_calls.py:68-72 | the hit is appended at the end of its category's list and no other list changes; it fails, changing nothing, exactly when the map lacks the category's key; the key set never changes |
| EsiUniverse.TermSearchHits.GetHitsForCategory | ai_agents/tools/esi/universe_calls.py:74-75 | the list stored under the category's value; a `KeyError` exactly when that key is missing |
| EsiUniverse.TaggedMember | ai_agents/tools/esi/universe_calls.py:94 | a hit is among the tagged records exactly when it carries the category and the name and id of one of them |
| EsiUniverse.FirstUnknownKeySpec | ai_agents/tools/esi/universe_calls.py:91-94 | the search raises exactly when some member whose key is no category has a record the term matches, and it reports the first such member's key |
| EsiUniverse.HitsForObject | ai_agents/tools/esi/universe_calls.py:91-94 | under each category the search keeps exactly the records of that category's list that the term matches, in list order, never more than the list has; nothing when the response lacks the category |
| EsiUniverse.HitsForMember | ai_agents/tools/esi/universe_calls.py:91-94 | a hit is kept under a category exactly when it has that category and the name and id of a record of that category's list whose lower-cased name contains the lower-cased term |
| EsiUniverse.GetIdsByTermsResult.GetHitsForTerm | ai_agents/tools/esi/universe_calls.py:89-95 | fails with the first unknown key exactly when one makes the search raise; otherwise returns a container for the term with the ten category keys holding, under each category, exactly the hits `HitsFor` describes |
| EsiUniverse.GroupsStep | ai_agents/tools/esi/universe_calls.py:91-94 | appending one member's kept records, tagged, to its own category's list turns the lists of the members before it into the lists of the members up to it; a member whose key is no category changes no list |
| EsiUniverse.AddEntryHits | ai_agents/tools/esi/universe_calls.py:92-94 | the inner loop over one member's records fails, changing nothing, exactly when the member's key is no category and one of its records matches; otherwise it appends the member's matching records, in order and tagged with its category, to that category's list and changes no other list |
| EsiUniverse.GetNamesByIdsResult.GetHitForId | ai_agents/tools/esi/universe_calls.py:160-164 | `None` exactly when no entry carries the id; otherwise the first entry carrying it, with its name and category, or the `ValueError` of an unknown category |
| RawPayload.Lookup | ai_agents/tools/esi/universe_calls.py:91 | looking up a key finds a member with that key, or reports that no member has it |
| RawPayload.LookupMember | ai_agents/tools/esi/universe_calls.py:91 | in a response object, looking up a member's key finds that member's list |
| RawPayload.SameObject | ai_agents/tools/universe_calls.py:131 | `raw_result == other.raw_result` on two response objects; an object is `==` to itself |
| RawPayload.SameObjectIff | ai_agents/tools/universe_calls.py:131 | two response objects are `==` exactly when every key looks up the same in both, whatever order the members come in |
| RawPayload.SameLookupsSameMembers | ai_agents/tools/universe_calls.py:131 | objects that look up alike hold the same members |
| RawPayload.Matches | ai_agents/tools/esi/universe_calls.py:93 | the test `search_term.lower() in hit["name"].lower()`: the empty term matches every name, and a term longer than the name matches none |
| RawPayload.MatchingHits | ai_agents/tools/esi/universe_calls.py:92-93 | the records of one list that the inner loop keeps, never more than the list holds; which records and in what order are stated by the two rows below |
| RawPayload.MatchingHitsMembers | ai_agents/tools/esi/universe_calls.py:92-93 | the filter keeps exactly the records whose lower-cased name contains the lower-cased term |
| RawPayload.MatchingHitsSubsequence | ai_agents/tools/esi/universe_calls.py:92-93 | the kept records are a subsequence of the list: the filter keeps list order |
| RawPayload.MatchingHitsStep | ai_agents/tools/esi/universe_calls.py:92-93 | filtering one more record keeps it exactly when the term matches its name |
| RawPayload.HitsUnderKey | ai_agents/tools/esi/universe_calls.py:91-93 | every record appended under a key matches the term |
| RawPayload.HitsUnderKeyOfObject | ai_agents/tools/esi/universe_calls.py:91-93 | in a response object, the records appended under a key are the kept records of that key's one list |
| Strings.LowerChar | ai_agents/tools/esi/universe_calls.py:93 | `.lower()` on one character: no upper-case ASCII letter remains, every other character is unchanged, and a letter moves by the distance from `A` to `a` |
| Strings.Lower | ai_agents/tools/esi/universe_calls.py:93 | `.lower()`: same length, lower-cased character by character |
| Strings.Contains | ai_agents/tools/esi/universe_calls.py:93 | Python's `needle in haystack`: the empty needle is in every string, and a needle longer than the haystack is in none |
| Strings.ContainsIff | ai_agents/tools/esi/universe_calls.py:93 | `needle in haystack` holds exactly when the needle occurs at some position of the haystack |
| Universe.HitEq | ai_agents/tools/universe_calls.py:66-67 | `__eq__` holds exactly when the two hits are equal values |
| Universe.HitNe | ai_agents/tools/universe_calls.py:69-70 | `__ne__` holds exactly when the two hits differ |
| Universe.HitListEq | ai_agents/tools/universe_calls.py:100 | list `==` with the element `__eq__` holds exactly when the lists are equal |
| Universe.HitsMapEq | ai_agents/tools/universe_calls.py:100 | dict `==` over such lists holds exactly when the maps are equal |
| Universe.GetIdsByTermHits.constructor | ai_agents/tools/universe_calls.py:76-78 | an empty map gives the ten empty lists; a non-empty map is kept as given |
| Universe.GetIdsByTermHits.AddHit | ai_agents/tools/universe_calls.py:80-84 | appends to exactly one category list; a `ValueError`, changing nothing, exactly when that key is missing |
| Universe.GetIdsByTermHits.GetHits | ai_agents/tools/universe_calls.py:86-87 | exactly the list stored under the category; a `KeyError` when it is missing |
| Universe.GetIdsByTermHits.Equals | ai_agents/tools/universe_calls.py:99-100 | holds exactly when the search terms and the hit maps are equal |
| Universe.GetIdsByTermHits.NotEquals | ai_agents/tools/universe_calls.py:102-103 | holds exactly when the search terms or the hit maps differ |
| Universe.GetIdsByTermsResult.GetHits | ai_agents/tools/universe_calls.py:113-119 | fails with the first unknown key exactly when one makes the search raise; otherwise, under each category, exactly the records of that category's list whose lower-cased name contains the lower-cased term, in response order |
| Universe.AddMemberHits | ai_agents/tools/universe_calls.py:116-118 | the inner loop over one member's records, with the same outcome and the same new state as in the ESI client |
| Universe.GetIdsByTermsResult.Equals | ai_agents/tools/universe_calls.py:130-131 | holds exactly when the term lists are equal and every key looks up the same in both responses |
| Universe.GetIdsByTermsResult.NotEquals | ai_agents/tools/universe_calls.py:133-134 | the negation of that |
| Universe.EqualResultsSameHits | ai_agents/tools/universe_calls.py:113-119 | `==` results give every term the same outcome: both searches raise or neither does, and both keep the same hits under every category |
| Dicts.Dict.Put | ai_agents/tools/generate_route.py:17 | `d[key] = value`: a new key goes last, an existing key keeps its place; the key gets the value and no other entry changes |
| Dicts.Empty | ai_agents/tools/generate_route.py:13 | `{}`: no entries and no keys in its order (also check_route.py:23 and :40) |
| Dicts.InsertionOrder | ai_agents/tools/generate_route.py:14-19 | the keys of the dict built by inserting the terms in turn: every term exactly once, and nothing else |
| Dicts.InsertionOrderSubsequence | ai_agents/tools/generate_route.py:14-19 | those keys are a subsequence of the terms and come in the order the terms first occur: a key listed before another occurs among the terms before the other occurs at all |
| Dicts.InsertionOrderDistinct | ai_agents/tools/generate_route.py:14-19 | inserting distinct terms keeps exactly their order |
| Dicts.PutOrder | ai_agents/tools/generate_route.py:17 | inserting the keys one after another yields `InsertionOrder` |
| SystemSearch.FirstFailureSpec | ai_agents/tools/generate_route.py:14-15 | the system search fails exactly when some term's search raises, and with what the first such term's search raises |
| SystemSearch.FirstFailurePrefix | ai_agents/tools/generate_route.py:14-15 | once the search of a term raises, later terms are not searched |
| SystemSearch.SystemsByTermsStep | ai_agents/tools/generate_route.py:17 | storing a term's system hits extends the dict of the terms before it |
| SystemSearch.SystemsByTermsKeys | ai_agents/tools/generate_route.py:13-19 | the key set is exactly the set of terms; repeated terms collapse to one key; keys come in the order the terms first occur; distinct terms keep their order |
| SystemSearch.SystemsByTermsValue | ai_agents/tools/generate_route.py:15-19 | each term maps to the response's `systems` list filtered by the term, in response order, or to an empty list, never left out |
| SystemSearch.SystemHitsMatch | ai_agents/tools/generate_route.py:15-17 | a hit is stored under a term exactly when it is a record of the `systems` list, with category `systems`, and its lower-cased name contains the lower-cased term |
| SystemSearch.SystemHitsForTerm | ai_agents/tools/generate_route.py:15-17 | one term's search followed by its `systems` list: fails exactly when that search raises, and otherwise yields exactly the hits `HitsFor` keeps under `systems` |
| GenerateRoute.GetSystemsByTerms | ai_agents/tools/generate_route.py:8-21 | fails exactly as the first failing term's search does; otherwise returns `SystemsByTerms`, with every system hit of every term and no classification |
| CheckRoute.GetSystemsByTerms | ai_agents/tools/check_route.py:20-31 | fails exactly as the first failing term's search does; otherwise returns `SystemsByTerms` |
| CheckRoute.MessageShape | ai_agents/tools/check_route.py:7-11 | the message starts with "Ambiguous route."; it has the multiple-matches line, then the ambiguous hits, exactly when some name is ambiguous; it has the no-matches line, then the names, exactly when some name is not found; in that order |
| CheckRoute.NewAmbiguousRouteError | ai_agents/tools/check_route.py:6-15 | the message built line by line is `Message`, and the exception keeps nothing else |
| CheckRoute.AmbiguousHits | ai_agents/tools/check_route.py:43-44 | exactly the names with more than one system hit, each with all of its hits |
| CheckRoute.AmbiguousHitsOrder | ai_agents/tools/check_route.py:42-44 | the ambiguous names keep dict order |
| CheckRoute.SystemsNotFound | ai_agents/tools/check_route.py:45-46 | the names with no system hit, in dict order |
| CheckRoute.ClassifyStep | ai_agents/tools/check_route.py:42-46 | classifying one more name adds it to the collection its number of hits calls for, and a name with exactly one hit to neither |
| CheckRoute.Classify | ai_agents/tools/check_route.py:40-46 | the loop builds exactly `AmbiguousHits` and `SystemsNotFound` over every name of the dict |
| CheckRoute.Classification | ai_agents/tools/check_route.py:42-46 | a name is ambiguous, with all its hits, exactly when it has more than one system hit; not found exactly when it has none; in neither with exactly one |
| CheckRoute.RaisesIffNotExactlyOne | ai_agents/tools/check_route.py:47-48 | the check raises exactly when some name does not have exactly one system hit |
| CheckRoute.Check | ai_agents/tools/check_route.py:33-52 | a failing search raises its error; otherwise every name is classified before anything is raised, and an `AmbiguousRouteError` over both collections is raised exactly when either is non-empty; otherwise the per-name hit map is returned |

## Left out

- The HTTP calls are not modelled: `get_systems`, `get_systems_names`, `get_ids_by_terms`, `get_route_by_ids` and the other endpoint wrappers. Neither is their `HttpError`, which comes from a module that is not part of this model. The decoded response body is an input value instead.
- The Lambda handlers under `ai_agents/handlers/` are not modelled. They are request and response adapters.
- `to_dict`, `__str__` and `__repr__` are not modelled. They depend on Python's `repr` formatting. For the same reason, the `str(...)` parts of the `AmbiguousRouteError` message stay symbolic (`HitsRepr`, `NamesRepr`). `get_systems_by_terms` stores `hit.to_dict()`; the model stores the hit values themselves, which carry the same name, category value and id.
- `GetNamesByIdsResult.to_dict` is not modelled. It calls `get_hits_for_id`, which does not exist.
- The `__hash__` methods are not modelled. Those at universe_calls.py:105-106 and :136-137 hash a dict or a list, which Python refuses with `TypeError`. The one at :72-73 hashes the hit's three fields, and no modelled operation uses it.
- EsiUniverse.EmptyHitsKeys: the key order of the default dict is not kept, because a Dafny map has no order. Only `to_dict`, which is left out, depends on that order.
- Strings.Lower: lower-cases ASCII letters only, not the whole of Unicode as `str.lower` does.
- `TermSearchHits`/`GetIdsByTermHits` over a caller-supplied non-empty dict: the model copies it, while Python shares the dict with the caller. Aliasing through that shared dict is not captured.
- The `else` branch of `if hits_for_name:` (check_route.py:28, generate_route.py:18) is not modelled. It is dead: the container has no `__bool__` or `__len__`, so it is always true.
- `AmbiguousRouteError` assigns its two arguments to local variables, not attributes. The model's exception accordingly carries only its message.
- CheckRoute.Check: the second call to `get_systems_by_terms` on success searches the same response value again. A fresh HTTP request could answer differently, which the model does not capture.
- The legacy `HitCategory` and `GetIdsByTermHit` are the ESI client's `TermsHitCategory` and `TermSearchHit`: they have the same members, values and fields. `__eq__` applied to an object of another class is not modelled.
- The name lookup assumes each `/universe/names/` entry has `id`, `name` and `category`. The search assumes each record has `name` and `id`. A missing field (a `KeyError` in Python) is not modelled.
- Python raises `ValueError` for an unknown category value; the model returns a `Failure` value instead.
