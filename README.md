# Real-estate assistant: upload pipeline and search parsing in Dafny

This project models the core logic of a real-estate assistant. It has two halves.

- **Upload side.** A seller describes a property over several turns.
  - Each utterance is checked for a request to start over.
  - Three extraction layers pull fields out of the utterance: recognised entities, fixed patterns, and a language model's answer.
  - The fields are merged into the session's record in a key-value memory.
  - The assistant asks for whatever required field is still missing.
  - Once the record is complete, an upload is dispatched. It saves the record to the catalog and only then forgets the session.
- **Search side.** A buyer's free-text query is turned into filters, and the filters are applied to the listing table.
  - The query yields a city, a bedroom count, a price bound in lakh and a property type.
  - The filters become either a parameterised SQL text or a chain of row filters.
  - The price column is converted from texts such as "1.2 cr" or "90 lakh".
  - A small keyword-based language-understanding helper normalises a query, picks its intent and reads two entities.

Modules, one per source file plus shared helpers:

| module | file | models |
|---|---|---|
| `Outcomes` | outcomes.dfy | `Option` and `Result` |
| `Text` | text.dfy | character classes, case mapping, `strip`, `replace`, `find`/`rfind`, `join`, counting, Python's `float` on decimal notation |
| `Sequences` | sequences.dfy | order-keeping selection (`Where`) and the subsequence relation |
| `Patterns` | patterns.dfy | a scanner for each fixed regular expression of the core, with the leftmost-match search |
| `Memory` | memory.dfy | the record type, dictionary merge, and `PropertyMemory` (app/memory_manager.py) |
| `NluExtractor` | nlu_extractor.dfy | the three-layer `HybridExtractor.extract` (app/nlu_extractor.py) |
| `LlmClient` | llm_client.dfy | reply selection, JSON window, normalisation, pattern fallback and summaries (app/llm_client.py) |
| `UploadAgentModel` | upload_agent.dfy | reset detection, missing fields, `process_input`, `upload_property` (app/upload_agent.py) |
| `Nlu` | nlu.dfy | `NLUProcessor` (app/nlu.py) |
| `Store` | store.dfy | `search`, the SQL branch of `search_properties`, `_filter_df` and `_price_to_number` (app/store.py) |

Stateful parts are classes:
- `PropertyMemory` holds the key-value store as a `map` field and an `available` flag.
- `UploadAgent` holds the queue of dispatched uploads and a task counter.
- `Catalog` holds the saved records.

Loops in the source are methods proved against a specification function. Examples are the missing-field loop, the three extraction passes, the normalisation loop, the fallback amenity loop, the intent search, the SQL builder, the price conversion and the price filter. Everything else is functions and lemmas.

Three behaviours of the source are kept as written and stated by lemmas:
- **Price conversion can fail.** In `_price_to_number`, only the unit-less branch is guarded by `try`. A cell that names crore or lakh but holds no number makes the conversion fail, and `_filter_df` fails with it. `PriceToNumber` returns `Err` there, and `Store.PriceBroken` exhibits the cell "cr".
- **"greater noida" is never chosen.** The city list puts "noida" before "greater noida", and "greater noida" contains "noida". So a query naming Greater Noida is placed in Noida (`Store.GreaterNoidaIsNoida`).
- **Normalisation is not idempotent.** Stripping happens before the character removal, so a normalised query can still end in a space (`Nlu.NormalizeNotIdempotent`).

## Model

| member | source | states |
|---|---|---|
| `UploadAgentModel.ResetIgnoresCase` | app/upload_agent.py:33-39 | reset detection gives the same answer on the upper-cased text: it is case-insensitive |
| `UploadAgentModel.ResetAnywhere` | app/upload_agent.py:35-39 | any reset phrase, in any mix of cases and with any text around it, is detected as a reset |
| `UploadAgentModel.CheckMissingFields` | app/upload_agent.py:86-92 | the collected list is the required fields that are absent or falsy, in the order of `required_fields` |
| `UploadAgentModel.MissingExactly` | app/upload_agent.py:28 | a field is reported missing iff it is required and not filled; the missing list is a subsequence of the required fields |
| `UploadAgentModel.MergeNeverLosesFields` | app/upload_agent.py:62-64 | after merging non-empty extracted values, every missing field was already missing; a complete record stays complete |
| `UploadAgentModel.CompleteStaysComplete` | app/upload_agent.py:59-73 | a complete session stays complete after merging any utterance's extraction, given non-empty entity spans |
| `UploadAgentModel.EmptyValueMissing` | app/upload_agent.py:86-92 | a required field present with an empty value counts as missing |
| `UploadAgentModel.ProgressTitle` | app/upload_agent.py:104 | the progress title is the record's title, or "Unknown Property" when it has none |
| `UploadAgentModel.Catalog.Save` | app/upload_agent.py:106 | an accepted save appends the record to the catalog; a refused one changes nothing and reports the refusal |
| `UploadAgentModel.UploadAgent.ProcessInput` | app/upload_agent.py:44-81 | reset: the session is cleared, reply is "reset", nothing is extracted or dispatched; otherwise the stored record becomes the old one overlaid by the layered extraction; the reply lists exactly the missing fields, or, when none is missing, exactly one upload with the merged record is dispatched; a session that was complete always dispatches, given non-empty entity spans |
| `UploadAgentModel.UploadAgent.UploadProperty` | app/upload_agent.py:97-110 | five progress reports 0, 25, 50, 75, 100 in that order; the record is saved; the session is cleared only when the save went through |
| `Memory.Overlay` | app/memory_manager.py:32-34 | the merge has the keys of both records; the update's values win; other stored values are kept |
| `Memory.OverlayIdempotent` | app/upload_agent.py:62-64 | applying the same extraction twice gives the record that applying it once gives |
| `Memory.OverlayAbsorbs` | app/memory_manager.py:32-34 | overlaying the stored record with the already merged record changes nothing, so the second merge in `update` is harmless |
| `Memory.OverlayKeeps` | app/upload_agent.py:63 | merging never removes a key and never changes a key the update does not mention |
| `Memory.PropertyMemory.Get` | app/memory_manager.py:21-26 | the empty record when the store is unavailable or holds nothing for the session, else the stored record |
| `Memory.PropertyMemory.Update` | app/memory_manager.py:28-35 | unavailable: returns the new data and stores nothing; available: stores and returns the stored record overlaid by the new data, which `Get` then returns; other sessions are unchanged |
| `Memory.PropertyMemory.Clear` | app/memory_manager.py:37-42 | removes only this session's record, so `Get` returns the empty record; a no-op when the store is unavailable |
| `NluExtractor.FirstOfIsFirst` | app/nlu_extractor.py:34-40 | the value chosen for a label set is the text of the first entity with such a label; none iff no entity has one |
| `NluExtractor.EntityLayerFields` | app/nlu_extractor.py:34-40 | layer 1 sets only location, price and area, each iff an entity of its kind exists, with the first such entity's text |
| `NluExtractor.EntityPass` | app/nlu_extractor.py:34-40 | the `setdefault` loop over the entities computes layer 1 |
| `NluExtractor.Dedup` | app/nlu_extractor.py:55-57 | the amenity list has no repetitions and holds exactly the words found |
| `NluExtractor.RuleLayerFields` | app/nlu_extractor.py:43-57 | the pattern price and area fill their key only when layer 1 left it unset; the title is the upper-cased BHK match; the amenities are set whenever any keyword matched; other keys are untouched |
| `NluExtractor.RuleAmenities` | app/nlu_extractor.py:55-57 | the amenities are a non-empty, repetition-free list of keywords from the fixed list |
| `NluExtractor.RulePass` | app/nlu_extractor.py:43-57 | the conditional assignments compute layer 2 |
| `NluExtractor.Additions` | app/nlu_extractor.py:61-64 | layer 3 adds a model field iff it is truthy and still unset, with the model's value |
| `NluExtractor.ModelLayerPrecedence` | app/nlu_extractor.py:60-66 | layer 3 keeps every value of layers 1 and 2, adds only truthy unset model fields, adds all of them, and changes nothing when the call failed |
| `NluExtractor.ModelPass` | app/nlu_extractor.py:61-64 | the loop over the model's fields computes layer 3 |
| `NluExtractor.ModelLayerPointwise` | app/nlu_extractor.py:61-64 | any record with layer 3's keys and values is layer 3's result |
| `NluExtractor.ModelCannotOverride` | app/nlu_extractor.py:61-64 | no value set by layers 1 and 2 is changed by layer 3 |
| `NluExtractor.EntityFirst` | app/nlu_extractor.py:34-49 | the entity layer's location and price win over everything later; without an entity, the pattern price and area are used |
| `NluExtractor.ModelFailure` | app/nlu_extractor.py:60-68 | when the model call raises, the result is the output of layers 1 and 2 |
| `NluExtractor.EntityLayerTruthy` | app/nlu_extractor.py:34-40 | with non-empty entity spans, layer 1 stores no empty value |
| `NluExtractor.RuleHitsTruthy` | app/nlu_extractor.py:43-57 | non-empty pattern matches and a keyword list add no empty value |
| `NluExtractor.LayeredTruthy` | app/nlu_extractor.py:26-68 | with non-empty entity spans, no value of the extraction is empty |
| `NluExtractor.Extract` | app/nlu_extractor.py:26-68 | `extract` computes the three layers in their order of precedence |
| `Patterns.SearchBhk` | app/nlu_extractor.py:51-53 | a BHK match starts with a digit and ends in "bhk" in any case |
| `Patterns.SearchExtractorPrice` | app/nlu_extractor.py:43-45 | a price match starts with a digit |
| `Patterns.SearchExtractorArea` | app/nlu_extractor.py:47-49 | an area match starts with a digit |
| `Patterns.FindAllWordsOccur` | app/nlu_extractor.py:55-57 | every amenity found occurs in the text, in any case |
| `Patterns.SearchQueryPrice` | app/nlu.py:48 | a query price match starts with a digit |
| `Patterns.SearchStoreBhk` | app/store.py:201-202 | the bedroom group is a non-empty run of digits |
| `Patterns.SearchStorePrice` | app/store.py:204-207 | the price unit group is one of lakh, crore and cr |
| `Patterns.StorePriceParses` | app/store.py:207-208 | the number group of a price match always converts with `float` |
| `Patterns.FirstMatch` | app/store.py:201 | a search finds the leftmost position where the pattern matches, and none iff it matches nowhere |
| `LlmClient.Post` | app/llm_client.py:66-80 | a failed request, or a `choices` value that `len` rejects, gives ""; a non-empty `choices` gives its first text stripped; else a `response` field gives its text stripped; else the printed answer |
| `LlmClient.PostUnsizedChoices` | app/llm_client.py:71-80 | a `choices` value without a length (null, a number) raises, so the reply is "" whatever `response` holds |
| `LlmClient.PostFallsBackToResponse` | app/llm_client.py:74-75 | without choices, a string `response` field is returned stripped |
| `LlmClient.PostPrefersChoices` | app/llm_client.py:71-75 | when choices exist, a `response` field beside them is ignored |
| `LlmClient.BraceWindowCut` | app/llm_client.py:131-136 | with a `{` before a `}`, the parsed text runs from the first `{` to the last `}` inclusive |
| `LlmClient.BraceWindowWhole` | app/llm_client.py:131-136 | without a `{` followed by a `}`, the whole reply is parsed |
| `LlmClient.StrippedTruthyAll` | app/llm_client.py:142-143 | every truthy list item is kept, stripped, in order |
| `LlmClient.StrippedTruthyNone` | app/llm_client.py:142-143 | falsy list items are dropped |
| `LlmClient.StrippedTruthyKept` | app/llm_client.py:142-143 | for any list, the comprehension is the stripped printed forms of its truthy items, in their order |
| `LlmClient.NormalizeMixedList` | app/llm_client.py:142-143 | the list "gym", "", "pool" normalises to "gym, pool" |
| `LlmClient.NormalizeValue` | app/llm_client.py:140-146 | null stays null; a scalar becomes its own printed form, stripped; a list becomes the ", "-join of the stripped printed forms of its truthy items, in order |
| `LlmClient.Normalize` | app/llm_client.py:140-146 | the loop keeps exactly the parsed keys and normalises each value |
| `LlmClient.MatchPass` | app/llm_client.py:152-169 | the four conditional assignments compute the pattern fields |
| `LlmClient.Fallback` | app/llm_client.py:148-177 | the fallback method, with its keyword loop, computes the fallback record |
| `LlmClient.AmenityHitsSet` | app/llm_client.py:172-175 | the keyword hits are exactly the capitalised keywords that occur as whole words |
| `LlmClient.AmenityHitsNonEmpty` | app/llm_client.py:176 | some keyword occurs iff the hit list is non-empty |
| `LlmClient.FallbackKeys` | app/llm_client.py:152-177 | only the five fallback keys appear, each iff its pattern matched or a keyword was found |
| `LlmClient.FallbackAmenityKey` | app/llm_client.py:172-177 | the amenities key is present iff some keyword occurs as a whole word |
| `LlmClient.FallbackAmenitiesSorted` | app/llm_client.py:176-177 | the amenities are joined in strictly ascending order, without repetition, and are exactly the capitalised keywords present |
| `LlmClient.SortedSetSpec` | app/llm_client.py:177 | `sorted(set(xs))` is strictly sorted and has the elements of `xs` |
| `LlmClient.SortedUnique` | app/llm_client.py:177 | two strictly sorted lists with the same elements are equal, so the amenity order is determined |
| `LlmClient.InsertSorted` | app/llm_client.py:177 | insertion keeps a list strictly sorted and adds exactly the new element |
| `LlmClient.BelowTotal` | app/llm_client.py:177 | Python's string order is total |
| `LlmClient.BelowTransitive` | app/llm_client.py:177 | Python's string order is transitive |
| `LlmClient.FallbackTitleShape` | app/llm_client.py:152-154 | the fallback title has no spaces, starts with the match's first digit and ends in "BHK" |
| `LlmClient.TitleShape` | app/llm_client.py:154 | upper-casing a BHK match and removing its spaces gives a digit-led, space-free text ending in "BHK" |
| `LlmClient.FallbackNoEmptyFields` | app/llm_client.py:152-177 | title, price, area and amenities are never empty strings |
| `LlmClient.FallbackEmptyLocation` | app/llm_client.py:157-159 | the location is the exception: on "in  ,!" the place group is one space, which strips to "" |
| `LlmClient.ExtractPropertyDetails` | app/llm_client.py:82-179 | the normalised JSON when it parses, else the pattern fallback |
| `LlmClient.FailedRequestFallsBack` | app/llm_client.py:78-80 | a failed request yields "", which does not parse, so extraction falls back to the patterns |
| `LlmClient.ParsedKeysKept` | app/llm_client.py:138-146 | parsed output keeps exactly the keys the model returned |
| `LlmClient.Summarize` | app/llm_client.py:181-217 | no listings give exactly "No matching properties found."; a usable model summary is returned as is; otherwise the fixed header followed by one line per listing, so with one-line fields the text holds exactly one line break per listing |
| `LlmClient.FallbackSummaryLines` | app/llm_client.py:212-217 | the fallback summary has one line per listing after the header line |
| `LlmClient.JoinLines` | app/llm_client.py:215-217 | joining one-line strings with line breaks puts one fewer break in than there are strings |
| `Nlu.ScrubAlphabet` | app/nlu.py:29 | the removal leaves only letters a-z, digits and whitespace |
| `Nlu.ScrubKeeps` | app/nlu.py:29 | a text made only of those characters is left as it is |
| `Nlu.NormalizeAlphabet` | app/nlu.py:25-34 | every character of the normalised text is a-z, a digit or whitespace, and it is no longer than the input |
| `Nlu.NormalizeNotIdempotent` | app/nlu.py:28-29 | "a !" normalises to "a ", which normalises to "a" |
| `Nlu.FirstMentionedSpec` | app/nlu.py:38-40 | the intent found is the first in order whose keyword the text contains; none iff no intent's keyword occurs |
| `Nlu.ClassifyIntent` | app/nlu.py:36-42 | the early-return loop computes the intent |
| `Nlu.IntentIsFirstMentioned` | app/nlu.py:18-23 | an intent whose keyword occurs, with no earlier intent's keyword occurring, is chosen |
| `Nlu.IntentDefault` | app/nlu.py:42 | without any keyword the intent is "search_property" |
| `Nlu.IntentKnown` | app/nlu.py:36-42 | the intent is always one of the four |
| `Nlu.SearchWins` | app/nlu.py:19 | a search keyword wins over every other intent's keywords |
| `Nlu.ExtractEntities` | app/nlu.py:44-55 | the two assignments compute the entities |
| `Nlu.EntitiesShape` | app/nlu.py:46-55 | only price and location appear, each iff its pattern matched; the price starts with a digit; the location is trimmed |
| `Nlu.EmptyLocation` | app/nlu.py:49-54 | on "in  " the location is the empty string |
| `Nlu.Process` | app/nlu.py:57-68 | the original text, its normalisation, and the intent and entities read from the normalised text |
| `Store.PriceErrorNeedsUnit` | app/store.py:104-112 | the conversion only fails on a string cell that names crore, cr or lakh |
| `Store.PriceDefaults` | app/store.py:100-112 | a non-string cell counts as 0, and so does a unit-less text that is not a number |
| `Store.PriceNotANumber` | app/store.py:109-112 | "N/A" counts as 0 rather than failing |
| `Store.PriceInCrore` | app/store.py:104-106 | a numeral followed by "cr" or "crore", with or without a space, converts to a hundred times its value |
| `Store.PriceInLakh` | app/store.py:107-108 | a numeral followed by "lakh", with or without a space, converts to its value |
| `Store.PriceBare` | app/store.py:109-110 | a bare numeral converts to its value |
| `Store.PriceBroken` | app/store.py:105-106 | the cell "cr" fails to convert |
| `Store.ParseQueryIgnoresCase` | app/store.py:197 | the parse of the lower-cased query is the parse of the query |
| `Store.FirstCitySpec` | app/store.py:211-214 | the city is the first of the list that the query contains; none iff it contains none |
| `Store.GreaterNoidaIsNoida` | app/store.py:211-214 | a query naming "greater noida" is placed in "noida" |
| `Store.BhkParsed` | app/store.py:201-202 | the bedroom count is present iff the pattern matched, and is the value of the matched digits |
| `Store.MaxPriceFound` | app/store.py:204-208 | a price bound is present iff the price pattern matched |
| `Store.MaxPriceValue` | app/store.py:206-208 | the bound is the number times 100 for cr and crore, and the number itself for lakh |
| `Store.UnitScales` | app/store.py:208 | cr and crore count in crore, lakh does not |
| `Store.ScaleUnits` | app/store.py:208 | scaling by each of the three units |
| `Store.TypePriority` | app/store.py:216-222 | villa beats flat and apartment, which beat plot; the type is one of the three or none |
| `Store.ClausePlaceholder` | app/store.py:164-175 | a clause that is on adds exactly one placeholder; one that is off adds none |
| `Store.SqlPlaceholders` | app/store.py:161-175 | the SQL text holds exactly one placeholder per parameter |
| `Store.BuildSql` | app/store.py:161-175 | the builder grows the text and the parameters as the clause rules say |
| `Store.SqlParamCount` | app/store.py:161-175 | one parameter per active filter; with none active the query selects every row with no parameters |
| `Store.ConvertPrices` | app/store.py:139 | the column converts iff every cell does; the first failing cell's error is reported; otherwise every value is that cell's price |
| `Store.KeepAtMost` | app/store.py:140 | the rows kept are exactly those whose price is within the bound, in order |
| `Store.FilterDf` | app/store.py:114-149 | the filter chain with its flag computes the filtered table |
| `Store.PrefilteredSpec` | app/store.py:121-135 | the location, bedroom and type filters in turn select the rows passing all three |
| `Store.FirstPriceErrorSpec` | app/store.py:139 | a conversion error is reported iff some row's price does not convert |
| `Store.FilterRowsNoFilter` | app/store.py:146-147 | with no active filter the result is empty |
| `Store.FilterRowsError` | app/store.py:133-140 | the filter fails iff the price filter is on and a row left by the other filters has an unconvertible price |
| `Store.FilterRowsMatches` | app/store.py:114-149 | with some filter active, a successful result is exactly the rows every active filter accepts, in table order |
| `Store.FilterRowsSound` | app/store.py:114-149 | every result row is a table row accepted by every active filter, the result is a subsequence of the table, and every such row is in it |
| `Store.SearchWithoutFiltersIsEmpty` | app/store.py:192-226 | a query naming no city, bedroom count, price or type finds nothing |
| `Sequences.WhereSpec` | app/store.py:121-140 | a selection keeps exactly the elements meeting the condition, in order |
| `Sequences.WhereWhere` | app/store.py:121-140 | two selections in turn select the elements meeting both conditions |

## Left out

- Case mapping, `\d` and `\w` are modelled for ASCII only. Python applies them to all of Unicode. Whitespace, for `strip` and `\s`, is the full set `str.isspace` accepts.
- The regular expressions are modelled by one scanner each, not by a regular-expression engine. Each scanner was derived by hand from the backtracking behaviour of its pattern.
- The location and type filters of `_filter_df` are modelled as case-insensitive substring tests. pandas' `str.contains` reads its pattern as a regular expression by default, and the location filter says so (`regex=True`). Metacharacters in the location or the type are therefore not modelled. `search` only passes "villa", "apartment" or "plot" as the type, so only the location can differ.
- `asyncio.create_task`, `asyncio.sleep` and `id(task)` are left out, because they involve concurrency and timing. Dispatch appends a pending upload with a counter as its identifier. `UploadProperty` runs one upload sequentially.
- `print` and logging are not modelled, because they are output only.
- The Redis client is modelled as a `map` field and an `available` flag. The JSON encoding of stored records is not modelled, so a record round-trips unchanged.
- spaCy's entity recognition, the HTTP call to the language model and `json.loads` are foreign libraries.
- `NluExtractor.LayeredTruthy` and the completeness clause of `ProcessInput` assume every recognised entity span is non-empty (`SpansNonEmpty`). This is an assumption about the recogniser, which the model does not include.
  - The entities and the model's answer are inputs.
  - `json.loads` is a function parameter that yields `None` where it raises or does not give an object.
  - The model's summary is an input, `None` when the call raised.
- The prompt texts are not modelled, and neither is the printed dictionary in the incomplete-record message. They do not affect what is stored or returned.
- `float` is modelled on plain decimal notation: spaces, a sign, digits and one point. Exponents, `inf`, `nan` and underscores are not modelled.
- Floating-point rounding is not modelled: prices are `real`.
- pandas, the database connection, SQL execution and its result are external.
  - The table is a sequence of rows holding the four columns the filters read.
  - The SQL text is built but not run.
  - Column-name normalisation is not modelled.
  - With the price filter on, `_filter_df` adds a `price_num` column to every returned record (app/store.py:138). The model's rows hold only the four columns, so its results do not carry it.
- Semantic search, the vector index, the CSV and SQL loading and `search_filters` are external stores and are not part of this model.
- The `except: pass` around `int(bhk)` in `_filter_df` is not modelled. The bedroom filter is modelled as an equality on integers, which cannot raise.
- `NluExtractor.Dedup`: `list(set(...))` has an unspecified order. The model keeps each word at its first occurrence, so the contract states the elements and the absence of repetitions, not the order.
- `UploadAgentModel.Catalog.Save`: `store.save` is not defined in the store class. It is modelled as a catalog operation that succeeds or fails according to a flag. Where the source would raise, `UploadProperty` returns `Err` and leaves the session as it was.
- After lower-casing, `replace("L", "")` in `_price_to_number` can never match. It is modelled as written.
- The speech, notification, scheduling, web-routing, agent-dispatch and configuration modules are not part of this model.
- `Store.BuildSql`: the source never builds this query as written. `PropertyStore.__init__` never sets `self.conn`, so with `USE_MYSQL` set, `search_properties` raises `AttributeError` at app/store.py:160, before the SQL text exists. `Store.BuildSql` and `Store.SqlParamCount` model the query the branch evidently means to build.
- `Store.BuildSql`: its contract ties the text and parameters to `SqlTextOf` and `SqlParamsOf`. The placeholder count is stated separately by `Store.SqlPlaceholders`.
