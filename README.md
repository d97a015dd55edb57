# grant-search and cleanmail back ends, in Dafny

This project models the logic of two back ends in one repository.

The grant search service:
- builds a candidate query from a parsed search description;
- selects at most 1200 grants by amount and asks a language model about each one;
- streams the included grants into a search job, with checkpoints and a completion flag;
- serves the job's results on poll, with a 75 s timeout;
- stores favourites without duplicates;
- ingests NSF award XML and NIH RePORTER records;
- stores derived data per grant;
- pages the NIH API in 14-day windows and splits Gmail searches into month windows;
- builds OpenAI tool schemas from Python function signatures.

The cleanmail tool:
- calls Gmail through a bounded retry loop behind a shared rate-limit date;
- pages listings and resolves messages in order;
- folds the mailbox history;
- turns scanned threads into thread and sender rows;
- aggregates sender statistics;
- deletes old, unanswered threads of senders the user marked for cleaning, one cleaning run at a time.

How the model is built:
- Every call to OpenAI, Gmail or an HTTP server is an input to the model: a sequence of pages, a function from request to outcome, or a function from attempt number to outcome.
- Thread pools are replaced by their sequential meaning: results are taken in submission order.
- Database tables are sequence fields of a class (`GrantModels.GrantDb`, `MailModels.MailDb`). The operations that change them are methods with `modifies` clauses, proved against specification functions.
- Times are integers in milliseconds, or day numbers where the source works by days.

Where the code disagrees with what its authors evidently meant, the model follows the code. It also gives a corrected version, which the rest of the model uses; see "## Findings".

## Model

| member | source | states |
|---|---|---|
| AiCommon.FormatForLlm | grant_search/ai/common.py:12-19 | two messages: the system prompt first, then the user text |
| AiCommon.FormatForLlmInjective | grant_search/ai/common.py:12-19 | prompt and text can be read back: equal message lists come from equal inputs |
| AiCommon.ClientHolder.constructor | grant_search/ai/common.py:22-23 | no client is cached and none has been built |
| AiCommon.ClientHolder.GetAiClient | grant_search/ai/common.py:26-34 | the cached client is returned when there is one; otherwise one client with the 12 s timeout is built and cached |
| AiCommon.GetTwice | grant_search/ai/common.py:26-34 | two calls in a row return the same client, and at most one client is ever built |
| GrantModels.GrantDb.constructor | grant_search/db/models.py:50-245 | every table starts empty |
| GrantModels.AwardUrl | grant_search/db/models.py:122-128 | the NSF award-search URL for NSF, the NIH project URL for NIH, nothing for any other agency |
| GrantModels.AwardUrlRoundTrip | grant_search/db/models.py:122-128 | the award id can be read back from the URL built for it |
| GrantModels.AwardUrlInjective | grant_search/db/models.py:122-128 | two award ids of one agency never share a URL |
| GrantModels.GrantsWithout | grant_search/db/models.py:93-120 | exactly the grants whose id differs from the deleted one remain |
| GrantModels.DerivedWithout | grant_search/db/models.py:113-116 | exactly the derived rows of other grants remain (delete-orphan cascade) |
| GrantModels.EmbeddingsWithout | grant_search/db/models.py:118-120 | exactly the embeddings of other grants remain (delete-orphan cascade) |
| GrantModels.DeleteGrant | grant_search/ingest/ingest.py:273-274 | deleting a grant fails, changing nothing, exactly when a favourite or a search result still refers to it; otherwise the grant goes with its derived data and embeddings, and no orphan row is left |
| Utf8.Decode | grant_search/ingest/send_to_ai.py:99 | strict UTF-8 decoding of the raw text: a result has at most as many characters as there are bytes |
| Utf8.DecodeEncode | grant_search/ingest/send_to_ai.py:99 | every string survives encoding and strict decoding |
| Utf8.EncodeDecode | grant_search/ingest/send_to_ai.py:99 | bytes that decode are exactly the encoding of what they decode to, so decoding is only ever partial on malformed input |
| Utf8.Encode | grant_search/ingest/ingest.py:175 | `str.encode()`: each character becomes one to four bytes |
| GrantFilter.KeepsConcat | grant_search/filter_grants.py:67-83 | chaining `.filter` calls conjoins their conditions |
| GrantFilter.Where | grant_search/filter_grants.py:67-83 | a query keeps exactly the rows that satisfy every clause, and no more rows than it started with |
| GrantFilter.Grants | grant_search/filter_grants.py:67 | the grant of each row, in order |
| GrantFilter.WhereNoClauses | grant_search/filter_grants.py:67 | an unfiltered query returns all grants |
| GrantFilter.WhereAppend | grant_search/filter_grants.py:69-81 | adding one filter narrows the previous query's result |
| GrantFilter.ResolveAgency | grant_search/filter_grants.py:38-43 | an id is found exactly when some agency name is ILIKE the given name read as a pattern, and it is the first such agency's id |
| GrantFilter.LiteralAgencyName | grant_search/filter_grants.py:38-40 | a name without `%`, `_` or backslash matches exactly the agency names equal to it up to case |
| Strings.LiteralLike | grant_search/filter_grants.py:32 | a LIKE pattern without `%`, `_` or backslash matches exactly itself |
| Strings.PercentLikeAll | grant_search/filter_grants.py:23 | the pattern `%` matches every name |
| Strings.UnderscoreLikeOne | grant_search/filter_grants.py:32 | the pattern `_` matches exactly the one-character names |
| GrantFilter.IntendedQueryMeaning | grant_search/filter_grants.py:49-83 | the corrected query keeps a row exactly when it lies within each bound that is given, belongs to the agency when a nonzero id is given, and belongs to the data sources when a non-empty list is given |
| GrantFilter.NoArgumentsKeepsAll | grant_search/filter_grants.py:49-83 | with no argument the query adds no filter and keeps every grant |
| GrantFilter.AfterAloneIgnored | grant_search/filter_grants.py:69-73 | as written, a lower bound without an upper bound is dropped |
| GrantFilter.BeforeAloneRaises | grant_search/filter_grants.py:72-73 | as written, an upper bound without a lower bound compares with None and raises |
| GrantFilter.AsWrittenBounds | grant_search/filter_grants.py:69-78 | as written, a kept row lies between both bounds whenever an upper bound is given, and belongs to the agency when one is given |
| GrantFilter.FilterGrantsFromAi | grant_search/filter_grants.py:9-46 | corrected: the listing holds no more grants than there are rows (its meaning is FilterGrantsFromAiMeaning) |
| GrantFilter.FilterGrantsFromAiMeaning | grant_search/filter_grants.py:9-46 | corrected: a grant is listed exactly when one of its rows meets every bound given, the agency the name resolves to and the data sources the pattern names |
| GrantFilter.UnknownAgencyIgnored | grant_search/filter_grants.py:38-43 | an agency name that is ILIKE no agency name filters nothing |
| GrantFilter.ResolvedAgencyNarrows | grant_search/filter_grants.py:38-46 | with a resolved agency every grant returned belongs to that agency |
| Nih.GetGrantsFrom | grant_search/ingest/nih.py:14-46 | each request asks for the window with 500 rows at the offset of the results received so far and the search id of the first response; paging stops exactly when the offset reaches the reported total, `done` says it did, otherwise every response was used; the grants are the results of the responses used, in order |
| Nih.PagedUnique | grant_search/ingest/nih.py:14-46 | the responses fix the requests: two request lists that both follow the paging rule are equal |
| Nih.ReceivedStep | grant_search/ingest/nih.py:42 | the offset grows by the size of each page received |
| Nih.EmptyPageRepeatsOffset | grant_search/ingest/nih.py:42-46 | an empty page leaves the offset where it was, so the next request repeats the previous one |
| Nih.YearWindows | grant_search/ingest/nih.py:49-57 | 14-day windows from January 1 to December 31 that meet end to end, the last one cut at December 31 |
| Nih.ConsumedAppend | grant_search/ingest/nih.py:52-57 | draining one more window appends its grants after those of the earlier windows |
| Nih.GrantsByYear | grant_search/ingest/nih.py:49-57 | the windows are drained in order, each one paged by the rule of GetGrantsFrom and every earlier one to its total; the result is None exactly when the last window drained ran out of responses before its total, and otherwise every window was drained and the grants are all their results in order |
| ParallelList.WithRetry | grant_search/gmail/parallel_list.py:16-21 | the first attempt's result when it succeeds; otherwise exactly one more attempt, whose result is returned |
| ParallelList.MonthWindows | grant_search/gmail/parallel_list.py:43-73 | the windows start at 2003/1/01 to 2003/2/01, follow each other month by month, skip to the next January after a future month (the `break` leaves only the month loop), and end in 2025 |
| ParallelList.PrefixAgrees | grant_search/gmail/parallel_list.py:47-73 | two window lists built by these rules agree wherever both are defined |
| ParallelList.WindowsDetermined | grant_search/gmail/parallel_list.py:47-73 | the rules determine the window list completely |
| ParallelList.NotLast | grant_search/gmail/parallel_list.py:47-73 | a window is followed by another only while December 2025 has not been reached and the loop has not stopped |
| ParallelList.WindowsAdvance | grant_search/gmail/parallel_list.py:49-67 | each window ends after it starts |
| ParallelList.JanuaryAfterFuture | grant_search/gmail/parallel_list.py:69-73 | a window ending in the future is followed by one that runs to the next January |
| ParallelList.ConsecutiveMonths | grant_search/gmail/parallel_list.py:47-67 | when no month lies in the future, window k ends k + 1 months after January 2003 |
| ParallelList.FullHistory | grant_search/gmail/parallel_list.py:47-67 | when no month lies in the future there are 275 consecutive one-month windows |
| ParallelList.BothAssociative | grant_search/gmail/parallel_list.py:75-79 | concatenating the windows' results is associative, and a failed window fails the whole result |
| ParallelList.GatheredOne | grant_search/gmail/parallel_list.py:54-66 | one window issues one search for the query with its after/before dates and the 10000 cap |
| ParallelList.GatheredAppend | grant_search/gmail/parallel_list.py:75-79 | the result for two runs of windows is the first run's ids followed by the second's |
| ParallelList.GatherResults | grant_search/gmail/parallel_list.py:75-85 | the ids of every window in submission order, or a failure when one window fails |
| ParallelList.ListInParallel | grant_search/gmail/parallel_list.py:27-85 | the windows are the ones the month rules give, and the ids are those of every window in order |
| QueryProcessor.Reusable | grant_search/ai/query_processor.py:56-62 | the found query has the same text and is complete, and nothing is found exactly when no query has both |
| QueryProcessor.CreateQuery | grant_search/ai/query_processor.py:42-78 | a completed query with the same text is reused and nothing is added; otherwise one incomplete query for this user and time is appended and its id returned |
| QueryProcessor.IncompleteNotReused | grant_search/ai/query_processor.py:59 | an incomplete query is never reused |
| QueryProcessor.Checkpoints | grant_search/ai/query_processor.py:25 | every checkpoint is the index of a result |
| QueryProcessor.CheckpointsExactly | grant_search/ai/query_processor.py:25 | a commit happens after result i exactly when i is 5 or i % 100 is 99 |
| QueryProcessor.CheckpointsIncrease | grant_search/ai/query_processor.py:19-30 | the commits come in the order of the results |
| QueryProcessor.Ids | grant_search/ai/query_processor.py:20-21 | the id of each result's grant, in order |
| QueryProcessor.Reasons | grant_search/ai/query_processor.py:22 | each result's reason, in order |
| QueryProcessor.AccumulatedLockstep | grant_search/ai/query_processor.py:17-24 | after the loop the query's grants and reasons are the results' grants and reasons, index by index |
| QueryProcessor.RunQuery | grant_search/ai/query_processor.py:12-39 | corrected: a query that cannot be parsed ends with only its status changed; otherwise the query holds every result's grant and reason, is marked complete, and each commit saved the results up to its checkpoint |
| QueryProcessor.Accumulate | grant_search/ai/query_processor.py:17-34 | the query ends complete, holding all the results, and each commit saved the prefix of the results up to its checkpoint |
| SendToAi.GrantText | grant_search/ingest/send_to_ai.py:98-101 | stored text is used as it is; stored bytes are decoded as UTF-8, which fails on malformed bytes |
| SendToAi.StoredTextReadBack | grant_search/ingest/send_to_ai.py:98-101 | text stored as UTF-8 bytes is read back unchanged |
| SendToAi.ProcessSingleGrant | grant_search/ingest/send_to_ai.py:96-113 | a result exactly when the text can be read and the model answers the system prompt and the text; the result pairs the grant with that answer |
| SendToAi.RowsFor | grant_search/ingest/send_to_ai.py:132-136 | the derived rows of one grant |
| SendToAi.DropFirstFor | grant_search/ingest/send_to_ai.py:132-139 | the first derived row of the grant is deleted, if there is one, and only that row |
| SendToAi.Results | grant_search/ingest/send_to_ai.py:118-128 | one outcome per grant, in submission order |
| SendToAi.ProcessGrants | grant_search/ingest/send_to_ai.py:115-153 | as written, each successful grant only loses its old derived row: building the new row raises (the analysis carries `summary`, which is not a column), after the delete has been flushed and committed |
| SendToAi.ProcessGrantsIntended | grant_search/ingest/send_to_ai.py:115-153 | corrected, each successful grant's old row is replaced by one recording its analysis; a new session starts after every 20th position that succeeded |
| SendToAi.StoreIntended | grant_search/ingest/send_to_ai.py:129-145 | corrected, one result: a classified grant's first old derived row is deleted and a row with its analysis is added under the next id; a failed result changes nothing |
| SendToAi.RowsForConcat | grant_search/ingest/send_to_ai.py:132-136 | the derived rows of a grant in two tables put together are those of each table |
| SendToAi.RowsForAround | grant_search/ingest/send_to_ai.py:132-139 | removing or keeping one row changes a grant's derived rows by that row alone |
| SendToAi.RowsForNone | grant_search/ingest/send_to_ai.py:132-136 | a table without rows of a grant yields none for it |
| SendToAi.DropFirstRows | grant_search/ingest/send_to_ai.py:132-139 | deleting a grant's first derived row leaves other grants' rows alone and, with at most one row per grant, leaves that grant none |
| SendToAi.StepIntendedRows | grant_search/ingest/send_to_ai.py:129-146 | one corrected step keeps at most one row per grant, gives the processed grant exactly its new row and leaves the others alone |
| SendToAi.LatestAfterStep | grant_search/ingest/send_to_ai.py:126-146 | after one more corrected step, every grant whose latest analysis is in the results so far has exactly one row recording it |
| SendToAi.UntouchedAfterStep | grant_search/ingest/send_to_ai.py:126-146 | after one more corrected step, a grant never analysed so far still has its original rows |
| SendToAi.IntendedUpsert | grant_search/ingest/send_to_ai.py:115-153 | corrected, a table with at most one row per grant keeps that property; each grant's last successful analysis is its one row; grants without a result keep their rows |
| SendToAi.AsWrittenDropsDerived | grant_search/ingest/send_to_ai.py:115-153 | as written, every successfully analysed grant ends with no derived row, and no grant gains one |
| SendToAi.AsWrittenLosesRow | grant_search/ingest/send_to_ai.py:137-145 | as written, re-analysing a grant that had a derived row leaves the table empty |
| SendToAi.IntendedKeepsRow | grant_search/ingest/send_to_ai.py:137-145 | corrected, the same input ends with the new row |
| WebApi.Zip | grant_search/web/web_api.py:211 | pairs up grants and reasons up to the shorter list |
| WebApi.Dropped | grant_search/web/web_api.py:215 | a Python slice start never drops more entries than there are |
| WebApi.JsonForQuery | grant_search/web/web_api.py:205-225 | "success" exactly for complete queries, the stored status otherwise; the text and sampling fraction are copied |
| WebApi.JsonResults | grant_search/web/web_api.py:206-218 | no results when the reasons are missing or empty; otherwise the grant/reason pairs from the start index on |
| WebApi.JsonForQueryAsWritten | grant_search/web/web_api.py:37-52 | as written, rendering succeeds exactly when there is no pair to render, because `json_for_grant` reads `summary`, which derived data does not have |
| WebApi.ListingRaises | grant_search/web/web_api.py:37-52 | as written, a query with results cannot be listed, while the corrected rendering lists them |
| WebApi.GrantsQueryStatus | grant_search/web/web_api.py:228-252 | corrected: a missing id or unknown query is a 400 and changes nothing; an incomplete query older than 75 s is marked timed out; the reply renders the query from the start index |
| WebApi.PollStatus | grant_search/web/web_api.py:245-252 | polling reports complete queries as "success", stale ones as "timed_out", the rest by their stored status, and never touches the results |
| WebApi.GrantsByText | grant_search/web/web_api.py:114-132 | missing text is a 400; through `create_query`, a completed query with the same text is reused for any caller, signed in or not; otherwise a signed-out request fails (a 500) and a signed-in one gets a new incomplete query appended, whose id is the reply |
| WebApi.ExistingFavorite | grant_search/web/web_api.py:154-161 | nothing is found exactly when the user has not favourited the grant |
| WebApi.FavoriteGrant | grant_search/web/web_api.py:135-171 | a missing grant id is a 400, no user a 401, a repeat favourite a 400; a grant id that names no grant fails the foreign key of favorited_grants.grant_id at the commit, a 500 with nothing stored; only otherwise one favourite is added |
| WebApi.FavoriteAppendUnique | grant_search/db/models.py:240-245 | adding a favourite the user does not have keeps one favourite per user and grant |
| WebApi.UploadDatasource | grant_search/web/web_api.py:55-72 | missing data, or a missing name or agency, is a 400; otherwise an ingester for that name, agency and URL is configured |
| GrantQuery.LinearQuery | grant_search/ai/filter_string_to_function.py:157-161 | as written, the query fails exactly when an upper date bound is given without a lower one (the comparison with None raises) |
| GrantQuery.KeepsOne | grant_search/ai/filter_string_to_function.py:138-189 | a one-clause query keeps exactly the rows that satisfy the clause |
| GrantQuery.KeepsFlag | grant_search/ai/filter_string_to_function.py:180-189 | a flag filter is added exactly when the flag is given, and then keeps the rows whose derived flag equals it |
| GrantQuery.KeepsDerived | grant_search/ai/filter_string_to_function.py:169-189 | the derived-data filters keep exactly the rows that have derived data when any of them is given, with a status among those listed and each given flag |
| GrantQuery.KeepsSourceAndAgency | grant_search/ai/filter_string_to_function.py:139-153 | the data-source and agency clauses keep a row exactly when its grant is in the matched data sources (when any matched) and its agency is the named one (when one was found) |
| GrantQuery.KeepsAmounts | grant_search/ai/filter_string_to_function.py:162-166 | the amount clauses keep a row exactly when its amount lies within each bound that is given and nonzero |
| GrantQuery.KeepsBase | grant_search/ai/filter_string_to_function.py:139-166 | with the lower date bound guarded by its own field, the clauses before the derived-data join keep a row exactly when its source, agency, dates and amount match |
| GrantQuery.KeepsIntended | grant_search/ai/filter_string_to_function.py:138-191 | the corrected clause list keeps a row exactly when it meets every given criterion |
| GrantQuery.LinearIntendedMeaning | grant_search/ai/filter_string_to_function.py:126-193 | the corrected query keeps exactly the rows meeting every criterion: data sources, agency, both date bounds, nonzero amount bounds, DEI status and flags |
| GrantQuery.LinearAsWrittenDropsLowerBound | grant_search/ai/filter_string_to_function.py:157-161 | as written, the query is the corrected one with the lower date bound dropped unless an upper bound is also given |
| GrantQuery.LinearBeforeAloneRaises | grant_search/ai/filter_string_to_function.py:160-161 | as written, an upper date bound alone raises |
| GrantQuery.LinearAfterAloneIgnored | grant_search/ai/filter_string_to_function.py:160-161 | as written, a grant starting before the lower bound is still returned when no upper bound is given, while the corrected query drops it |
| GrantQuery.Candidates | grant_search/ai/filter_string_to_function.py:191 | the matching grants, largest amount first, and no others |
| GrantQuery.SamplingFraction | grant_search/ai/filter_string_to_function.py:247-251 | 1.0 up to 1200 matches; above that the fraction of the matches that the 1200 sampled grants make up |
| GrantQuery.DistinctById | grant_search/ai/filter_string_to_function.py:245 | `.all()` of the Grant query returns one grant per id: the ids are distinct, each grant is the first of the rows with its id, and every row's id is represented |
| GrantQuery.Select | grant_search/ai/filter_string_to_function.py:244-245 | the count is that of all the rows; the grants are at most 1200, one per id among the first min(count, 1200) rows, each at its first row |
| GrantQuery.SelectedCount | grant_search/ai/filter_string_to_function.py:244-245 | the count is that of the matching joined rows, and the grants sent to the model are the distinct grants of the first min(count, 1200) rows in descending-amount order |
| GrantQuery.SelectedDistinct | grant_search/ai/filter_string_to_function.py:243-245 | no two grants sent to the model share an id |
| GrantQuery.RepeatedGrantSelectedOnce | grant_search/ai/filter_string_to_function.py:244-245 | a grant matched through two joined rows is counted twice and sent to the model once |
| GrantQuery.SelectedAreLargest | grant_search/ai/filter_string_to_function.py:191-245 | every grant sent to the model has an amount at least that of every row past the first 1200 |
| GrantQuery.SelectedMatch | grant_search/ai/filter_string_to_function.py:243-245 | every grant sent to the model matches the query |
| GrantQuery.Ask | grant_search/ai/filter_string_to_function.py:196-228 | the verdict is the model's answer: a (true, r) or (false, r) answer includes or excludes the grant with reason r, and a failed call excludes it with reason "Error" |
| GrantQuery.AgencyOf | grant_search/db/models.py:67-69 | a grant has no data source exactly when its data_source_id names none; an agency found is one of the agencies and carries the data source's agency_id |
| GrantQuery.FilterGrantsByQuery | grant_search/ai/filter_string_to_function.py:196-228 | as written, a verdict exactly when the grant has a data source, with or without an agency; only reading the agency of a missing data source raises |
| GrantQuery.NsfDescription | grant_search/ai/filter_string_to_function.py:205-214 | the NSF award summary exists only for text that parses as XML |
| GrantQuery.FilterGrantsByQueryIntended | grant_search/ai/filter_string_to_function.py:204-216 | corrected, a verdict only when there is a data source, and the same verdict as written unless the agency is the NSF |
| GrantQuery.NsfBranchNeverTaken | grant_search/ai/filter_string_to_function.py:204 | as written, every grant with a data source, an NSF one or one whose data source has no agency, is described by its raw text, because neither an Agency object nor None equals the string "NSF" |
| GrantQuery.NsfDescribedByAward | grant_search/ai/filter_string_to_function.py:204-214 | corrected, an NSF grant is described by its award summary |
| GrantQuery.Stream | grant_search/ai/filter_string_to_function.py:273-289 | no more results than futures |
| GrantQuery.StreamAppend | grant_search/ai/filter_string_to_function.py:273-289 | the results of two runs of futures are the first run's results followed by the second's |
| GrantQuery.StreamSound | grant_search/ai/filter_string_to_function.py:276-279 | every result comes from a future that completed with the grant included |
| GrantQuery.StreamInSubmissionOrder | grant_search/ai/filter_string_to_function.py:273-279 | included grants are yielded in the order they were submitted |
| GrantQuery.SkippedYieldsNothing | grant_search/ai/filter_string_to_function.py:277-289 | a future that raises or excludes its grant yields nothing |
| GrantQuery.JoinRows | grant_search/ai/filter_string_to_function.py:154-177 | without a derived-data filter, one row per grant, in order, with no derived data |
| GrantQuery.JoinedRows | grant_search/ai/filter_string_to_function.py:169-177 | with a derived-data filter the inner join holds exactly the pairs of a grant with one of its own derived rows |
| GrantQuery.JoinOne | grant_search/ai/filter_string_to_function.py:169-177 | a grant contributes one row without the join, and one row per derived row, in table order, with it |
| GrantQuery.DerivedOf | grant_search/db/models.py:114 | exactly the derived rows of the grant |
| GrantQuery.JoinRepeatsGrant | grant_search/ai/filter_string_to_function.py:176 | a grant with two derived rows yields two joined rows, both counted by `count()` |
| GrantQuery.JoinOnePerGrant | grant_search/ai/filter_string_to_function.py:176 | when every grant has exactly one derived row, the join keeps one row per grant, in order |
| GrantQuery.LikeIds | grant_search/ai/filter_string_to_function.py:139-143 | the ids of the data sources whose name is like the pattern |
| GrantQuery.Outcomes | grant_search/ai/filter_string_to_function.py:258-266 | one future per selected grant |
| GrantQuery.QueryByText | grant_search/ai/filter_string_to_function.py:231-289 | corrected: the status passes through parsing_query, reading_grants, sending_to_ai and waiting_for_ai, stopping after the first when the search function cannot be parsed; the query records the sampling fraction, and the results are the included grants among the distinct grants selected, in order |
| GrantQuery.ReadFutures | grant_search/ai/filter_string_to_function.py:273-289 | the pairs of the included grants, in submission order |
| GptFunction.TypeDescriptor | grant_search/ai/extract_gpt_function.py:136-140 | a descriptor marks the parameter required exactly when its type is not an Optional |
| GptFunction.BaseDescriptor | grant_search/ai/extract_gpt_function.py:141-179 | the descriptor keeps the required flag it was given |
| GptFunction.LiteralTypesDescribed | grant_search/ai/extract_gpt_function.py:175 | the type of every Literal member (str, int, bool or None) has a descriptor of its own, so `**` is applied to a (descriptor, required) pair |
| GptFunction.LiteralNeverDescribed | grant_search/ai/extract_gpt_function.py:170-177 | no Literal, plain or Optional, is ever described; the failure is a ValueError exactly when the members have mixed types, and otherwise the TypeError of unpacking a tuple |
| GptFunction.DictValues | grant_search/ai/extract_gpt_function.py:161-167 | dict[str, V] is an object whose `patternProperties` hold V's whole (descriptor, required) pair, and V's errors pass through |
| GptFunction.BaseIgnoresRequired | grant_search/ai/extract_gpt_function.py:141-179 | whether a type has a descriptor, which descriptor and which error do not depend on the required flag |
| GptFunction.ScalarTypes | grant_search/ai/extract_gpt_function.py:140-148 | str, int, float and bool map to string, integer, number and boolean, all required |
| GptFunction.NoneAndContainerTypes | grant_search/ai/extract_gpt_function.py:149-154 | None, list and dict map to null, array and object, all required |
| GptFunction.NumberUnion | grant_search/ai/extract_gpt_function.py:145-146 | `int \| float` is a required number |
| GptFunction.OptionalNotRequired | grant_search/ai/extract_gpt_function.py:138-140 | `Optional[T]` has T's descriptor (or T's error) and is not required |
| GptFunction.OptionalNumberIsInteger | grant_search/ai/extract_gpt_function.py:138-144 | `Optional[int \| float]` keeps only its first member and becomes an integer |
| GptFunction.ListItems | grant_search/ai/extract_gpt_function.py:155-160 | `list[T]` is an array whose items have T's descriptor, and fails when T does |
| GptFunction.RefusedTypes | grant_search/ai/extract_gpt_function.py:161-179 | dicts with non-string keys, literals of mixed kinds, other generics and unknown types are refused |
| GptFunction.PropPut | grant_search/ai/extract_gpt_function.py:118 | setting a property makes it hold the new value and leaves every other property alone |
| GptFunction.ParamError | grant_search/ai/extract_gpt_function.py:48-86 | a documented parameter passes exactly when it is an argument, is described, is optional only with a default and required only without one, its docstring type and hint are equal by Python's `==`, it has a type from somewhere, and its description is not blank |
| GptFunction.SameTypeReflexive | grant_search/ai/extract_gpt_function.py:70 | every type term equals itself under the modelled `==`, so a docstring type written as the hint always matches it |
| GptFunction.UnionSpellingsAgree | grant_search/ai/extract_gpt_function.py:70 | `Optional[int]`, `Union[None, int]` and `None \| int` compare equal, because union equality ignores member order and spelling, while `str` is a different type |
| GptFunction.FirstParamError | grant_search/ai/extract_gpt_function.py:48-86 | no error exactly when every documented parameter passes; otherwise the error of one of them |
| GptFunction.DocNames | grant_search/ai/extract_gpt_function.py:87 | the documented names, in order |
| GptFunction.FirstUndocumented | grant_search/ai/extract_gpt_function.py:88-90 | nothing exactly when every argument is documented; otherwise an undocumented argument |
| GptFunction.Required | grant_search/ai/extract_gpt_function.py:130 | exactly the arguments without a default |
| GptFunction.PropertiesPrefixFailure | grant_search/ai/extract_gpt_function.py:112-120 | the first parameter whose type is refused decides the error |
| GptFunction.BindDefaults | grant_search/ai/extract_gpt_function.py:24-28 | a non-constant default is refused; otherwise the names of the last arguments that have defaults |
| GptFunction.CheckParams | grant_search/ai/extract_gpt_function.py:48-86 | the loop finds the first documented parameter that fails, in docstring order |
| GptFunction.CheckDocumented | grant_search/ai/extract_gpt_function.py:87-90 | the loop finds the first undocumented argument |
| GptFunction.BuildProperties | grant_search/ai/extract_gpt_function.py:112-120 | the loop builds one property per documented parameter and collects the optional names |
| GptFunction.CreateFunctionDescription | grant_search/ai/extract_gpt_function.py:23-133 | the checks run in the source's order and the schema is the one the rules give |
| GptFunction.ReturnsSectionChecked | grant_search/ai/extract_gpt_function.py:97-103 | "Returns: None" passes on a function without a return annotation and is refused on one annotated `-> None`; a Returns section without a type raises TypeError, which is not a ValueError |
| GptFunction.PropertiesFailOnAny | grant_search/ai/extract_gpt_function.py:112-120 | one documented parameter whose type has no descriptor makes the properties loop fail |
| GptFunction.LiteralParamRefused | grant_search/ai/extract_gpt_function.py:112-120 | a function with a documented Literal parameter is never described |
| GptFunction.AcceptedIsConsistent | grant_search/ai/extract_gpt_function.py:23-133 | an accepted function has constant defaults and a parsing docstring; every documented parameter is an argument with a consistent description, every argument is documented, no exception is declared, and a non-blank description names it |
| GptFunction.AcceptedSchema | grant_search/ai/extract_gpt_function.py:23-133 | an accepted function's schema is its name, its short description, the properties of the documented parameters and the required list over the arguments after the first |
| GptFunction.RequiredExactly | grant_search/ai/extract_gpt_function.py:119-130 | an argument is required exactly when it has no default and its type is not an Optional |
| GptFunction.OptionalNamesAreOptional | grant_search/ai/extract_gpt_function.py:116-120 | only parameters with an Optional type lose their required mark |
| GptFunction.ParamErrorOnArgs | grant_search/ai/extract_gpt_function.py:48-86 | the checks depend only on which arguments have defaults |
| GptFunction.FirstParamErrorOnArgs | grant_search/ai/extract_gpt_function.py:48-86 | the same holds for all the documented parameters together |
| GptFunction.RequiredOnArgs | grant_search/ai/extract_gpt_function.py:130 | the required list depends only on which arguments have defaults |
| GptFunction.DefaultsOnTail | grant_search/ai/extract_gpt_function.py:24-28 | with distinct names, renaming the first argument does not change which later arguments have defaults |
| GptFunction.DistinctAfterSwap | grant_search/ai/extract_gpt_function.py:45 | replacing the first argument by a fresh name keeps the names distinct |
| GptFunction.DescribeOnTails | grant_search/ai/extract_gpt_function.py:45-47 | the schema depends only on the arguments and documented parameters after the first |
| GptFunction.CheckedOnDefaults | grant_search/ai/extract_gpt_function.py:100-133 | the later checks and the schema agree for two default sets that agree on the arguments |
| GptFunction.FirstParameterIgnored | grant_search/ai/extract_gpt_function.py:45-47 | the first argument (the run context) and its documentation never affect the schema |
| GptFunction.WithInterpretation | grant_search/ai/extract_gpt_function.py:182-187 | adds a required string property `interpretation` and changes nothing else |
| GptFunction.PublicFunctions | grant_search/ai/extract_gpt_function.py:200-202 | only functions whose name does not start with `_` are described |
| GptFunction.PublicFunctionsAppend | grant_search/ai/extract_gpt_function.py:200-202 | one more statement adds its function exactly when it is a public function |
| GptFunction.ModuleSchemasArePublic | grant_search/ai/extract_gpt_function.py:199-206 | one schema per public function, in order, each the function's own description |
| GptFunction.ParseModule | grant_search/ai/extract_gpt_function.py:190-212 | a module succeeds exactly when every public function does, and each schema then gains the interpretation argument; otherwise the first failure is reported, a ValueError wrapped with the function's name and a TypeError or AttributeError as raised |
| GptFunction.ModuleRefusesFailing | grant_search/ai/extract_gpt_function.py:199-206 | one public function that cannot be described makes the whole module fail, so a Literal parameter anywhere yields no tool list |
| GptFunction.DescribeModule | grant_search/ai/extract_gpt_function.py:199-206 | the loop over the body yields the public functions' schemas in order, or the first refusal wrapped with the function's name |
| GptFunction.AddInterpretation | grant_search/ai/extract_gpt_function.py:208-211 | each schema, in order, gains the interpretation argument |
| GptFunction.ModuleFailureStays | grant_search/ai/extract_gpt_function.py:199-206 | the first function that fails decides the module's error |
| Ingest.Lookup | grant_search/ingest/ingest.py:43 | a key is missing exactly when no entry has it |
| Ingest.Put | grant_search/ingest/ingest.py:36-49 | setting a key makes it hold the new value and leaves every other key alone |
| Ingest.PutAll | grant_search/ingest/ingest.py:35-36 | copying attributes never removes an entry |
| Ingest.Fold | grant_search/ingest/ingest.py:39-49 | adding the children never removes an entry |
| Ingest.Convert | grant_search/ingest/ingest.py:32-58 | an element converts to text or a dictionary, never to a list |
| Ingest.Kids | grant_search/ingest/ingest.py:39-41 | each child is converted, in document order, under its tag |
| Ingest.XmlToDict | grant_search/ingest/ingest.py:32-58 | the loop over the children computes the conversion |
| Ingest.FoldStep | grant_search/ingest/ingest.py:39-49 | one more child is added under its tag |
| Ingest.LookupPutAll | grant_search/ingest/ingest.py:35-36 | after the attributes are copied, a key holds its last attribute value, or what it held before |
| Ingest.FoldOther | grant_search/ingest/ingest.py:39-49 | children with other tags leave a key alone |
| Ingest.MatchingNotList | grant_search/ingest/ingest.py:39-49 | converted children are never lists |
| Ingest.FoldLookup | grant_search/ingest/ingest.py:43-49 | a tag holds its one child, or the list of all its children in order |
| Ingest.ChildTagMapsToChildren | grant_search/ingest/ingest.py:39-49 | a tag with children maps to them, one value or a list, unless text overrides it |
| Ingest.AttributeKept | grant_search/ingest/ingest.py:35-36 | an attribute no child or text overrides keeps its last value |
| Ingest.LeafIsText | grant_search/ingest/ingest.py:52-56 | an element holding only text converts to its stripped text |
| Ingest.TextStoredUnderKey | grant_search/ingest/ingest.py:52-54 | an element with attributes or children keeps its stripped text under "text" |
| Ingest.BlankTextIgnored | grant_search/ingest/ingest.py:52 | blank text is ignored |
| Ingest.NewIngester | grant_search/ingest/ingest.py:66-77 | a source is required outside NIH; NIH gets the NIH API URL with the year; any agency but NIH and NSF is refused |
| Ingest.ConfigSourceNonEmpty | grant_search/ingest/ingest.py:66-77 | an accepted configuration always has a source |
| Ingest.HeaderFilename | grant_search/ingest/ingest.py:97-100 | a file name comes from the header exactly when it contains `filename=`, and quotes are stripped from both ends |
| Ingest.DownloadFilename | grant_search/ingest/ingest.py:95-108 | there is always a name; without one in the header it is the URL path's last segment, or "downloaded_file" |
| Ingest.ContentFilename | grant_search/ingest/ingest.py:79-116 | a local file's name is its base name; a download always has a name |
| Ingest.HeaderNameWins | grant_search/ingest/ingest.py:99-100 | a non-empty name after `filename=` is used with its quotes stripped |
| Ingest.Get | grant_search/ingest/ingest.py:139-151 | lookup succeeds exactly when the value is a dictionary holding the key, and yields its value |
| Ingest.AsList | grant_search/ingest/ingest.py:149-150 | a single investigator is wrapped in a list |
| Ingest.PiNames | grant_search/ingest/ingest.py:151 | names exactly when every investigator has a text PI_FULL_NAME, one per investigator in order |
| Ingest.DateOf | grant_search/ingest/ingest.py:142-143 | a date exactly when the value is text that parses |
| Ingest.ReadAwardFields | grant_search/ingest/ingest.py:139-151 | the award's id, title, amount, dates, description and investigators are read from the Award element; an empty description becomes "No description provided" |
| Ingest.SingleInvestigatorWrapped | grant_search/ingest/ingest.py:148-151 | a single investigator gives a one-name list |
| Ingest.GrantValues | grant_search/ingest/ingest.py:167-176 | the grant's values exactly when the amount parses as a float and the id, title and description are text |
| Ingest.FindGrantee | grant_search/ingest/ingest.py:156-160 | the first grantee with that name, or none exactly when no grantee has it |
| Ingest.GetOrCreateGrantees | grant_search/ingest/ingest.py:153-165 | one id per investigator; existing grantees stay as they are |
| Ingest.NameOfIdAppend | grant_search/ingest/ingest.py:161-164 | a new grantee does not change the name of another id |
| Ingest.NameOfIdAt | grant_search/ingest/ingest.py:156-165 | with distinct ids, each grantee's id names it |
| Ingest.GetOrCreateGranteeStep | grant_search/ingest/ingest.py:154-165 | the id returned names the investigator, ids stay distinct and fresh, older ids keep their names, and names stay unique |
| Ingest.GranteesNameInvestigators | grant_search/ingest/ingest.py:153-165 | each investigator's id names that investigator, older ids keep their names, and names stay unique |
| Ingest.NameOfIdBelow | grant_search/ingest/ingest.py:161-164 | every id in use is below the next fresh id |
| Ingest.ExistingGranteesReused | grant_search/ingest/ingest.py:156-165 | investigators who are all known create no grantee |
| Ingest.GranteesFor | grant_search/ingest/ingest.py:153-166 | the loop gets or creates the grantees for the investigators in order |
| Ingest.OnlyXmlProcessed | grant_search/ingest/ingest.py:136 | a file whose name does not end in .xml changes nothing |
| Ingest.FileAddsAtMostOneGrant | grant_search/ingest/ingest.py:135-181 | a file appends at most one grant, of this data source; a failed file adds none, and a failure before the grantees are committed changes nothing |
| Ingest.StoredGrantFromAward | grant_search/ingest/ingest.py:135-181 | a stored grant has the award's values, raw text that is the file's UTF-8 bytes, and one grantee per investigator named after them |
| Ingest.ProcessFile | grant_search/ingest/ingest.py:135-181 | the file's effect on grantees, grants and ids is the one the rules give |
| Ingest.StoreAward | grant_search/ingest/ingest.py:153-181 | the grantees and the grant are stored as the file's effect gives them |
| Ingest.NihNames | grant_search/ingest/ingest.py:193-197 | names exactly when every investigator has first and last names, each "first last" |
| Ingest.ReadNih | grant_search/ingest/ingest.py:188-204 | a record is read exactly when every key it uses is present, its investigators have both names and its dates parse; a null amount counts as 0.0, and a null award id, title or abstract is read as null |
| Ingest.ProcessNih | grant_search/ingest/ingest.py:183-240 | the loop applies each record's effect in order; failing records are skipped |
| Ingest.RecordAddsOneGrantOrNone | grant_search/ingest/ingest.py:186-240 | a failing record changes nothing; otherwise one grant of this data source is appended, its raw text the record's JSON, a null amount 0.0, and its award id, title and description the record's, NULL where the record has null |
| Ingest.NihAppendsOwnGrants | grant_search/ingest/ingest.py:183-240 | the records append at most one grant each, all of this data source, behind the grants there were |
| Ingest.SourceGrantIds | grant_search/ingest/ingest.py:268-272 | exactly the ids of the data source's grants |
| Ingest.DeleteSourceGrants | grant_search/ingest/ingest.py:265-278 | when a favourite or a search result refers to one of the data source's grants the commit fails and nothing is deleted; otherwise exactly the data source's grants go, with their derived data and embeddings; the count is the number of its grants |
| Ingest.DeleteEach | grant_search/ingest/ingest.py:273-274 | deleting unreferenced grants one by one leaves exactly the other grants, and the derived rows and embeddings of the other grants |
| Ingest.KeptGrants | grant_search/ingest/ingest.py:268-274 | exactly the grants whose id is not among the deleted ids remain |
| Ingest.KeptWithout | grant_search/ingest/ingest.py:273-274 | deleting the grants one at a time leaves the grants without all the ids deleted so far |
| Ingest.OtherSourcesKept | grant_search/ingest/ingest.py:268-274 | with distinct grant ids, the grants left are exactly those of other data sources |
| Ingest.KeptNone | grant_search/ingest/ingest.py:268-274 | deleting no id keeps every grant |
| Ingest.GetOrCreateAgency | grant_search/ingest/ingest.py:246-252 | an agency with that name is reused; otherwise one is appended; either way the agency with the id returned has that name |
| Ingest.SelectSource | grant_search/ingest/ingest.py:255-264 | the data source found by name if there is one, else the one found by origin |
| Ingest.FilesAppendOwnGrants | grant_search/ingest/ingest.py:118-133 | the files of a zip only append grants, all of this data source |
| Ingest.ProcessZip | grant_search/ingest/ingest.py:118-133 | the loop applies each file's effect in order and stops at the first error |
| Ingest.BytesFileEffect | grant_search/ingest/ingest.py:306 | a file passed as bytes fails exactly when its name ends in .xml (bytes are not text) |
| Ingest.ProcessDownload | grant_search/ingest/ingest.py:294-306 | the download has the effect DownloadEffect gives it |
| Ingest.DownloadOutcomes | grant_search/ingest/ingest.py:294-306 | a zip is processed file by file and its name then fails like a bytes file; a .gz download always fails, because `gzip.decompress` is handed the BytesIO of `_get_content`, and adds nothing; any other download adds nothing and fails exactly when its name ends in .xml |
| Ingest.Load | grant_search/ingest/ingest.py:291-306 | the load has the effect LoadEffect gives it |
| Ingest.LoadAppendsOwnGrants | grant_search/ingest/ingest.py:291-306 | grants are only appended, all of this data source; NIH needs a year after the first space, and that year must parse, or nothing changes |
| Ingest.PrepareSource | grant_search/ingest/ingest.py:242-289 | the agency exists afterwards; a selected data source is kept, and its grants are deleted exactly when none is referenced, leaving the other grants; otherwise the deletion error is raised and the grants stay; with no data source selected one is appended and no grant changes |
| Ingest.Ingest | grant_search/ingest/ingest.py:242-306 | the agency exists afterwards and favourites and search results are untouched; when a selected data source has a referenced grant the run stops with the deletion error and no grant changes; otherwise the data source's old grants are deleted, the other grants kept, and the load has its effect on the tables that leaves |
| GmailApi.Backoff | cleanmail/gmail/api.py:45-50 | the rate-limit delay after attempt i is (i + 3) * 10 s: at least 30 s, and at most 60 s for attempts that are retried |
| GmailApi.ExecFrom | cleanmail/gmail/api.py:32-56 | from attempt i, between one and five attempts are made in total |
| GmailApi.ExecFromMeaning | cleanmail/gmail/api.py:32-56 | every attempt before the last hit the rate limit (403); the call returns the last attempt's value when it succeeded, gives None on a 400, and otherwise raises its status; a 403 is raised only on the fifth attempt |
| GmailApi.AlwaysLimited | cleanmail/gmail/api.py:34-56 | a call that always hits the rate limit raises 403 after five attempts |
| GmailApi.OnlyRateLimitRetries | cleanmail/gmail/api.py:44-56 | only a 403 leads to another attempt |
| GmailApi.PacedAt | cleanmail/gmail/api.py:34-51 | the pacing rule holds at every attempt of a call |
| GmailApi.PacedRespectsLimit | cleanmail/gmail/api.py:34-51 | no attempt starts before the rate-limit date, a retry starts less than one second of jitter after it, and the gap after attempt j - 1 is the backoff plus under a second of jitter |
| GmailApi.RateLimiter.constructor | cleanmail/gmail/api.py:29 | the rate-limit date starts at the current time, and no call has been made |
| GmailApi.RateLimiter.Exec | cleanmail/gmail/api.py:32-56 | the outcome and the number of attempts are those of the retry rule; each attempt is recorded and paced; the clock and the rate-limit date end where the last attempt leaves them |
| GmailApi.RateLimiter.Invoke | cleanmail/gmail/api.py:36-43 | an attempt sleeps until the rate-limit date plus the jitter when that date lies ahead, and otherwise starts now |
| GmailApi.Served | cleanmail/gmail/api.py:76-80 | a page call retries once after an error; past the scripted calls the listing has no more pages |
| GmailApi.Truncate | cleanmail/gmail/api.py:87-90 | a positive limit keeps the first items up to it; no limit, or 0, keeps them all |
| GmailApi.PageAllBounded | cleanmail/gmail/api.py:59-90 | with a limit the result has at most that many items, and a limit of 0 returns none |
| GmailApi.FetchFrom | cleanmail/gmail/api.py:75-85 | the loop fails when a page and its retry both fail; it stops at the last page, or once the limit is reached, holding every page's items so far |
| GmailApi.PageAllStops | cleanmail/gmail/api.py:59-90 | paging stops after the last page or once the limit is reached, and returns the items truncated to the limit |
| GmailApi.PageAll | cleanmail/gmail/api.py:59-90 | the loop computes the paging rule |
| GmailApi.FetchAll | cleanmail/gmail/api.py:194-200 | the messages that could be fetched, keyed by id, or the status of a fetch that raised |
| GmailApi.IndexOf | cleanmail/gmail/api.py:202 | the first position of an id |
| GmailApi.InOrderKeys | cleanmail/gmail/api.py:201-206 | the resolved messages have distinct ids, exactly those listed that were fetched, each with its own message |
| GmailApi.InOrderOrdered | cleanmail/gmail/api.py:201-206 | the resolved messages follow the order of the original list |
| GmailApi.OrderedExtend | cleanmail/gmail/api.py:202-204 | the order is kept when the list grows |
| GmailApi.OrderedAppendNew | cleanmail/gmail/api.py:202-204 | appending a new id's message keeps the order |
| GmailApi.IndexPrefix | cleanmail/gmail/api.py:202 | an id's position does not change when the list grows |
| GmailApi.IndexUnique | cleanmail/gmail/api.py:202 | the first occurrence is the position |
| GmailApi.ByIdMeaning | cleanmail/gmail/api.py:187-207 | only the first max_items ids are fetched; the result holds each fetched message once, under its id, in list order |
| GmailApi.FetchMessages | cleanmail/gmail/api.py:194-200 | the loop fetches the ids as the mapping rule says |
| GmailApi.FailureStays | cleanmail/gmail/api.py:194-200 | the first fetch that raises decides the failure |
| GmailApi.ListMessagesById | cleanmail/gmail/api.py:187-207 | corrected: an empty list returns nothing; otherwise the messages of the first max_items ids, in order |
| GmailApi.ByIdAsWritten | cleanmail/gmail/api.py:130-137 | as written: any call that fetches a message raises TypeError, so only a call with nothing to fetch returns, and returns nothing |
| GmailApi.AsWrittenLosesResolved | cleanmail/gmail/api.py:187-207 | whenever the corrected call resolves a message, the call as written raises instead |
| GmailApi.ThreadsFetched | cleanmail/gmail/api.py:225-233 | on success one thread per id at most, each returned by its own call, with no call raising; on failure the first call that raised gives the status |
| GmailApi.ThreadsFetchedKeepsReturned | cleanmail/gmail/api.py:225-233 | when no call raises, exactly the bad requests (None results) are dropped |
| GmailApi.CountBadRequests | cleanmail/gmail/api.py:232 | the number of None results is at most the number of ids |
| GmailApi.ListMessagesByGthreadId | cleanmail/gmail/api.py:210-233 | the first max_items ids are fetched through the rate limiter, in order, with the None results filtered out |
| GmailApi.LatestAsWritten | cleanmail/gmail/api.py:277-281 | as written, the latest history id is the start id or one of the record ids, compared as strings |
| GmailApi.StringOrderMissesNewer | cleanmail/gmail/api.py:280 | as written, history id "1000" after start id "999" is not taken as the latest id, because "1000" < "999" as strings |
| GmailApi.LatestId | cleanmail/gmail/api.py:277-281 | corrected, the latest id is a decimal history id, the start id or one of the records' ids |
| GmailApi.LatestIdIsMax | cleanmail/gmail/api.py:277-281 | corrected, the latest id is numerically at least the start id and every record's id |
| GmailApi.NewMessagesUnsent | cleanmail/gmail/api.py:282-289 | every new message was added without the SENT label |
| GmailApi.UnsentMeaning | cleanmail/gmail/api.py:283-289 | a message is new exactly when it was added without the SENT label |
| GmailApi.SentNeverNew | cleanmail/gmail/api.py:286-287 | a message only ever added with SENT is skipped |
| GmailApi.LeftInboxMeaning | cleanmail/gmail/api.py:295-299 | a message is removed for a label change exactly when INBOX was among the labels removed |
| GmailApi.FoldHistory | cleanmail/gmail/api.py:275-299 | corrected: the loop fails exactly on a non-numeric history id; otherwise it yields the latest id, the new messages and the removed messages |
| GmailApi.NumericStep | cleanmail/gmail/api.py:278-281 | one more numeric record keeps the prefix numeric |
| GmailApi.CollectUnsent | cleanmail/gmail/api.py:282-289 | the messages added without SENT are appended, in order |
| GmailApi.CollectRemoved | cleanmail/gmail/api.py:290-299 | the deleted messages, then those that left INBOX, are appended |
| GmailApi.ListMessagesSinceHistoryId | cleanmail/gmail/api.py:255-308 | corrected: the history is paged with no limit, folded, and the new messages are fetched by id |
| GmailApi.LabelLookupFinds | cleanmail/gmail/api.py:420-430 | afterwards the first label with the name has the id returned; the labels are unchanged exactly when one had the name, and otherwise one label is created |
| GmailApi.LabelLookupIdempotent | cleanmail/gmail/api.py:420-430 | a second lookup of the same name finds the same id and creates nothing |
| GmailApi.WithLabel | cleanmail/gmail/api.py:433-441 | the thread gains the label, keeps its other labels, and the other threads are unchanged |
| GmailApi.Mailbox.constructor | cleanmail/gmail/api.py:420-422 | the account's labels are given, and no thread has been labelled yet |
| GmailApi.Mailbox.GetOrCreateLabelId | cleanmail/gmail/api.py:420-430 | the loop returns the first label with the name, or creates one |
| GmailApi.Mailbox.AddLabel | cleanmail/gmail/api.py:433-441 | the thread gains the label and True is returned |
| MailModels.Fraction | cleanmail/db/models.py:160-166 | a share `part * 1.0 / whole` is absent exactly when the whole is 0 (where Python raises), lies in [0, 1] when the part does not exceed the whole, and is 1 when they are equal |
| MailModels.ReadFraction | cleanmail/db/models.py:159-160 | one minus the unread share: absent exactly when no e-mail was counted, in [0, 1], and 1 when nothing is unread |
| MailModels.RepliedFraction | cleanmail/db/models.py:162-163 | the replied share: absent exactly when no e-mail was counted, otherwise in [0, 1] |
| MailModels.ImportantFraction | cleanmail/db/models.py:165-166 | the important share: absent exactly when no e-mail was counted, otherwise in [0, 1] |
| MailModels.SenderReadFraction | cleanmail/db/models.py:209-210 | a sender's read share exists only when its counters were computed and it sent some e-mail, and then lies in [0, 1] |
| MailModels.SenderRepliedFraction | cleanmail/db/models.py:212-213 | a sender's replied share exists only when its counters were computed and it sent some e-mail, and then lies in [0, 1] |
| MailModels.SenderImportantFraction | cleanmail/db/models.py:215-216 | a sender's important share exists only when its counters were computed and it sent some e-mail, and then lies in [0, 1] |
| MailModels.Domain | cleanmail/db/models.py:169 | an address without "@" is its own domain |
| MailModels.DomainOfAddress | cleanmail/db/models.py:168-170 | the domain of local@domain is the part after the "@", and the address is personal exactly when that domain is one of the seven personal domains |
| MailModels.SenderIsPersonalDomain | cleanmail/db/models.py:218-225 | True exactly when one of the sender's addresses has a personal domain |
| MailModels.PrimaryAddress | cleanmail/db/models.py:206-207 | no primary address exactly when there are no addresses; otherwise the first address of largest e-mail count |
| MailModels.GetStats | cleanmail/db/models.py:235-242 | statistics exist exactly when the sender has an address; they are recorded under an address of largest count; their counters are None exactly when the sender's were never computed, and otherwise are the sender's five counters |
| MailModels.AddressesOf | cleanmail/db/models.py:194 | a sender's addresses are exactly the stored addresses with its id |
| MailModels.NormalEmail | cleanmail/db/models.py:79 | lower-casing and stripping never lengthens the address, and leaves it empty exactly when it holds only white space |
| MailModels.NormalEmailIdempotent | cleanmail/db/models.py:79 | normalising a normalised address changes nothing |
| MailModels.MailDb.constructor | cleanmail/db/models.py:27-28 | every table starts empty |
| MailModels.MailDb.GetOrCreateUser | cleanmail/db/models.py:76-107 | the normalised address is looked up: an existing user keeps its id and row and gets the new credentials; otherwise a user is appended with a "created" status row and empty data; the cleanmail label is looked up or created in the mailbox only when the user has none, and afterwards the user has one |
| MailModels.MailDb.FindOrAddUser | cleanmail/db/models.py:79-97 | an existing user with the normalised address gets the new credentials and nothing else changes; otherwise a user with the next id and no label is appended, with a "created" status row under the id after it |
| MailModels.MailDb.AttachLabel | cleanmail/db/models.py:99-104 | a user that has a label id is left alone and the mailbox is not touched; otherwise the label is looked up by name, created when missing, and its id stored on the user |
| Scan.AddLabels | cleanmail/gmail/scan.py:29-30 | adding a message's labels to the set gives the union, still without duplicates |
| Wrappers.CountWherePositions | cleanmail/gmail/stats.py:28 | `.filter(p).count()` is the number of rows that satisfy the filter |
| Scan.LabelsOf | cleanmail/gmail/scan.py:20-30 | the thread's label set has no duplicates |
| Scan.LabelsOfMeaning | cleanmail/gmail/scan.py:25-30 | a label is in the thread's set exactly when some message with labels carries it; messages without labelIds are skipped |
| Scan.FirstParsed | cleanmail/gmail/scan.py:33-46 | no sender exactly when no From header parses; otherwise the first From header that parses decides it |
| Scan.FromOfFirstHeader | cleanmail/gmail/scan.py:25-46 | the thread's sender comes from the first parsing From header over all kept messages, in order |
| Scan.FirstParsedAppend | cleanmail/gmail/scan.py:33-46 | over two header lists, the first that yields a sender decides it |
| Scan.MaxDate | cleanmail/gmail/scan.py:48-50 | no date exactly when every message lacks labelIds; otherwise the largest internal date of a kept message |
| Scan.FromHasDate | cleanmail/gmail/scan.py:48-57 | a thread with a sender always has a most-recent date |
| Scan.Summarize | cleanmail/gmail/scan.py:20-50 | the loop yields the thread's labels, its sender and its most recent date |
| Scan.CollectLabels | cleanmail/gmail/scan.py:29-30 | the loop adds the labels as the set rule says |
| Scan.ScanHeaders | cleanmail/gmail/scan.py:33-46 | a sender already found is kept; otherwise the first header of this message that parses decides it |
| Scan.Process | cleanmail/gmail/scan.py:17-101 | a thread without a sender is skipped and changes nothing; an already stored thread id changes nothing; otherwise one thread row is appended; the existing rows stay, and senders stay unique per user and address |
| Scan.ProcessedThread | cleanmail/gmail/scan.py:59-98 | a new thread is stored as read exactly when no message is UNREAD, replied exactly when one is SENT, important exactly when one is IMPORTANT, and singleton exactly when it has one message; it has its most recent date, is not yet deleted, and points to this user's sender with the parsed address |
| Scan.LabelFlag | cleanmail/gmail/scan.py:59-61 | a flag label is in the thread's set exactly when some kept message carries it |
| Scan.JoinedHasPart | cleanmail/gmail/scan.py:97 | every label appears in the comma-joined column |
| Scan.ImportantInColumn | cleanmail/gmail/scan.py:61-97 | a thread stored as important has IMPORTANT in its label column |
| Scan.ProcessEach | cleanmail/gmail/scan.py:139-143 | processing threads in turn keeps the rows already there and keeps senders unique |
| Scan.ProcessEachStores | cleanmail/gmail/scan.py:139-143 | afterwards every processed thread with a sender is stored |
| Scan.ProcessEachStoredIsNoop | cleanmail/gmail/scan.py:65-67 | processing threads that are all stored changes nothing |
| Scan.SecondPassIsNoop | cleanmail/gmail/scan.py:139-143 | the second pass over the same threads changes nothing |
| Scan.ProcessMessage | cleanmail/gmail/scan.py:17-101 | the method updates the sender and thread tables as the processing rule says |
| Scan.ProcessAll | cleanmail/gmail/scan.py:142-143 | the loop processes each thread in turn |
| Scan.Sample | cleanmail/gmail/scan.py:133 | a sample of min(k, pool size) ids drawn without replacement from the pool |
| Scan.Chosen | cleanmail/gmail/scan.py:132-133 | at most max ids, all drawn from the listing, and all of them when there are no more than max |
| Scan.ScanUser | cleanmail/gmail/scan.py:104-144 | room is max_items less the user's stored threads: no room returns without a call; otherwise up to 50 times the room is listed, room ids are sampled and fetched, a listing or fetch failure stores nothing, and the fetched threads are processed |
| Scan.Tally | cleanmail/gmail/scan.py:151-169 | the sender's thread count is the number of this user's threads from it, and the unread, replied and important counts do not exceed it |
| Scan.SenderRows | cleanmail/gmail/scan.py:148-170 | exactly this user's senders with at least one thread get a row, each with its own counters |
| Scan.SenderStatsMeaning | cleanmail/gmail/scan.py:147-178 | the statistics hold exactly the user's senders with threads, with consistent counters, ordered by thread count, largest first |
| Scan.ComputeSenderStats | cleanmail/gmail/scan.py:147-178 | the loop computes the ranked sender statistics |
| Scan.TallyThreads | cleanmail/gmail/scan.py:163-169 | the loop counts one sender's threads |
| Stats.CountsDisjoint | cleanmail/gmail/stats.py:21-40 | the deleted threads and the threads still queued for deletion are disjoint parts of the user's threads |
| Stats.ComputeUserStatus | cleanmail/gmail/stats.py:19-41 | a user without a status row changes nothing; otherwise only that row changes: it records the deleted threads, all the user's threads, and the undeleted threads of the user's senders marked clean |
| Stats.UserStatusBounded | cleanmail/gmail/stats.py:19-41 | in the stored status, deleted plus to-be-deleted never exceeds the e-mail count |
| Stats.ResetCounts | cleanmail/gmail/stats.py:50-52 | exactly the sender's addresses get count 0; the table keeps its length and other rows |
| Stats.ConsideredThreads | cleanmail/gmail/stats.py:53-61 | exactly the threads of the sender's user and of the sender that are not deleted |
| Stats.StatsByAddress | cleanmail/gmail/stats.py:68-81 | when the tally succeeds: no address id has two entries, every entry's id is the address of one of the threads, and every entry has a positive count bounding its other counters |
| Stats.AddThreadShape | cleanmail/gmail/stats.py:68-81 | counting one more thread keeps the ids distinct, the counters bounded by positive counts and every id that of a thread |
| Stats.MissingStays | cleanmail/gmail/stats.py:68-72 | once a thread without an address is met the tally fails, whatever follows |
| Stats.SumAfterBump | cleanmail/gmail/stats.py:73-93 | counting one more thread under an address adds that thread to the summed totals |
| Stats.TotalsAreDirect | cleanmail/gmail/stats.py:68-93 | the sums over the per-address statistics equal the counts taken directly over the threads: total, unread, important, replied, deleted |
| Stats.SumAddThread | cleanmail/gmail/stats.py:69-93 | counting one thread, into an existing entry or a new one, adds exactly that thread to the summed totals |
| Stats.SumStep | cleanmail/gmail/stats.py:68-93 | the summed totals grow by exactly the last thread |
| Stats.DirectStep | cleanmail/gmail/stats.py:83-93 | the direct counts grow by exactly the last thread |
| Stats.SumAfterAppend | cleanmail/gmail/stats.py:83-93 | a new address entry adds its counters to the totals |
| Stats.NoneDeleted | cleanmail/gmail/stats.py:58-81 | no thread that was considered is deleted, so the deleted total is 0 |
| Stats.SplitScan | cleanmail/gmail/stats.py:101-113 | the split check passes every address only when each has statistics and none scores above 1 and five times the sender's score; otherwise it stops at the first address without statistics (KeyError) or the first that qualifies for a split |
| Stats.StatsForSenderTables | cleanmail/gmail/stats.py:44-116 | a missing sender changes nothing; otherwise the sender's address counts are 0 and the other addresses are unchanged; no considered thread ends the run, and then and on a missing address the sender's totals stay |
| Stats.StatsForSenderTotals | cleanmail/gmail/stats.py:83-113 | past the tally the sender's totals are the direct counts over its considered threads, with a positive total and no deletions, and a split check runs only for a sender with several addresses |
| Stats.OwnAfterReset | cleanmail/gmail/stats.py:50-52 | resetting the counts keeps the sender's addresses |
| Stats.PrimaryAfterReset | cleanmail/gmail/stats.py:98 | with all counts reset, the primary address is the first |
| Stats.ComputeStatsForSender | cleanmail/gmail/stats.py:44-116 | the method changes the address and sender tables as the per-sender rule says and returns its outcome |
| Stats.ResetAddressCounts | cleanmail/gmail/stats.py:51-52 | the loop resets the sender's address counts |
| Stats.TallyByAddress | cleanmail/gmail/stats.py:68-81 | the loop tallies the threads per address |
| Stats.CheckSplits | cleanmail/gmail/stats.py:101-113 | the loop runs the split check |
| CleanUser.DeleteThread | cleanmail/gmail/clean_user.py:21-31 | a thread already marked deleted is left alone and no call is made; otherwise the labelling call goes through the rate limiter: when it returns, the thread gets the cleanmail label and is marked deleted; on a bad request it is marked deleted unlabelled; when it raises, nothing changes |
| CleanUser.EligibleRows | cleanmail/gmail/clean_user.py:53-61 | exactly the rows of this user and sender older than 90 days, never replied to and not deleted |
| CleanUser.SelectionMeaning | cleanmail/gmail/clean_user.py:53-64 | the threads to clean are exactly the eligible rows, oldest first |
| CleanUser.SelectionRows | cleanmail/gmail/clean_user.py:53-61 | sorting the query rows keeps exactly the eligible rows |
| CleanUser.OrderedFromSorted | cleanmail/gmail/clean_user.py:62-64 | eligible rows in descending order of the negated date are dated and in ascending date order, oldest first |
| CleanUser.CleanSender | cleanmail/gmail/clean_user.py:34-78 | a missing user, a missing sender, a sender of another user and a user without label are refused before anything changes; otherwise the run stops where SenderRun says, the threads marked are exactly the oldest-first selected threads it reached and they carry the label when labelled, and the sender is Cleaned exactly when no call raises and the hundred-thread stop does not apply, and only then gets last_cleaned |
| CleanUser.CleanSelected | cleanmail/gmail/clean_user.py:53-78 | the selected threads are deleted in order until SenderRun stops; exactly those reached are marked and labelled, and last_cleaned is set exactly when the run is Cleaned |
| CleanUser.SenderRunMeaning | cleanmail/gmail/clean_user.py:66-78 | the run ends Cleaned after every thread, ApiRaised at the first call that raises with its status, or NoAddressToLog after the hundredth thread of a sender with no address; every earlier call returned |
| CleanUser.SenderRunCleaned | cleanmail/gmail/clean_user.py:66-78 | Cleaned exactly when no call raises and the sender is not both address-less and at a hundred threads or more |
| CleanUser.SelectionDistinct | cleanmail/gmail/clean_user.py:53-64 | the selected rows are distinct |
| CleanUser.DeleteAll | cleanmail/gmail/clean_user.py:70-73 | the loop ends as SenderRun says and marks deleted exactly the selected threads it reached, leaving every other row as it was |
| CleanUser.MarkedStep | cleanmail/gmail/clean_user.py:70-73 | marking one more selected thread keeps the loop marking only selected threads and keeps every earlier mark |
| CleanUser.CleanSenderIds | cleanmail/gmail/clean_user.py:103-110 | exactly the ids of this user's senders marked clean |
| CleanUser.CleanIdsStay | cleanmail/gmail/clean_user.py:74 | setting last_cleaned does not change which senders are marked clean |
| CleanUser.NewSenders | cleanmail/gmail/clean_user.py:111 | exactly the listed ids not yet handled |
| CleanUser.NothingNewAfter | cleanmail/gmail/clean_user.py:111-113 | once the new senders are counted as handled, none is new, so the corrected loop ends |
| CleanUser.NoneNew | cleanmail/gmail/clean_user.py:111-113 | when every id was handled, there is no new sender |
| CleanUser.Admission | cleanmail/gmail/clean_user.py:82-95 | a run goes ahead exactly when the user and its status row exist, the row is not marked cleaning without a start time, and no run started in the last 7200 s |
| CleanUser.CleanRound | cleanmail/gmail/clean_user.py:115-118 | cleaning a round only sets last_cleaned on senders and only marks this user's threads under those senders; when the user has a label, the ids are distinct senders of the user with addresses and no call raises, every eligible thread of each sender is deleted and each gets last_cleaned |
| CleanUser.CleanAllRounds | cleanmail/gmail/clean_user.py:99-118 | corrected loop: over all rounds it only marks this user's threads under senders clean at the start and only sets last_cleaned on senders; when the user is ready for a round and no call raises, every eligible thread of every such sender is deleted and each gets last_cleaned |
| CleanUser.CleanEmailForUser | cleanmail/gmail/clean_user.py:81-131 | corrected: a refused run changes nothing; an admitted run only marks this user's threads under its clean senders and only sets last_cleaned on senders; when it finishes with no call raising, every eligible thread of every clean sender is deleted and each clean sender gets last_cleaned; it ends with is_cleaning reset, the start time recorded and the deleted count stored |
| CleanUser.CleanEmailForUserAsWritten | cleanmail/gmail/clean_user.py:81-131 | as written: an admitted run with any clean sender never leaves its loop; whenever the run returns, the status row holds only the start of the run, because the final reset is committed through a session that holds no change |
| CleanUser.AsWrittenRefusesNextRun | cleanmail/gmail/clean_user.py:120-130 | as written: after a finished run the next run within 7200 s is refused as already cleaning |
| CleanUser.CorrectedAdmitsNextRun | cleanmail/gmail/clean_user.py:120-130 | corrected: with the reset stored, the next run within 7200 s is admitted |
| CleanUser.AsWrittenFindsAllAgain | cleanmail/gmail/clean_user.py:99-113 | with the handled list never extended, every clean sender is new again on each round |

## Left out

- Network, file and database I/O (urllib, requests, zip, gzip, temporary files, SQLAlchemy sessions and engines): replaced by inputs and in-memory tables. When a session commits is not modelled; each operation's effect on the tables is. The one commit that is lost, in `clean_email_for_user`, is recorded under "## Findings".
- Flask routing, OAuth and Auth0, the Redis workers and the command-line entry points: outside the core logic.
- Concurrency: thread pools, `future.result(timeout=12)`, `sender_lock` and the bounded in-flight window are modelled sequentially. A late or failed future is an input flag, and results are taken in submission order. Interleavings are not modelled.
- The shared `rate_limit_date` is one field of `GmailApi.RateLimiter`. Races between threads that share it are not modelled.
- Sleep jitter is a parameter bounded below one second. `random.sample` is a `draw` parameter that picks the position of each draw. The wall clock is the `now` parameter.
- `strptime`/`strftime` are replaced by integer dates. The `before:YYYY/MM/DD` query string sent to Gmail by `scan` is not built; the listing is an input.
- The From-header regular expression in `_process_message` is a parameter `parse` that returns an optional (name, address).
- The floating-point importance scores and `value_prop` of `AddressStats` and `GmailSender` (exponents and `exp`) are a parameter `score`. Only the structural split gate is modelled.
- `split_address` cannot be imported from `cleanmail.gmail.scan`, so a qualifying address ends the per-sender run with `SplitFailed`. That error is modelled; the split itself is not.
- `compute_stats` runs `compute_stats_for_sender` for each of the user's senders in a thread pool with a session per sender. Only the per-sender update (`Stats.ComputeStatsForSender`) is modelled, not the fan-out or its order. The call to `compute_stats` at the end of `clean_email_for_user` is left out for the same reason.
- `scan.py` stores senders by (user, address) with a name, a shape of `GmailSender` that `models.py` does not declare. The model follows `scan.py`.
- One id counter (`nextId`) stands for the autoincrement keys of all cleanmail tables.
- A listing ordered by a column keeps the table order among ties (a stable sort). The database need not.
- The label set of a thread is kept in first-seen order. Python's `set` gives no order, so the order of the comma-joined column is not modelled.
- Gmail's `labels.list` and `labels.create` are taken to succeed. A raising label call inside `get_or_create_label_id` is not modelled.
- `grant_search/gmail/api.py` is not part of this model. `ParallelList` takes its `exec_with_rate_limit` over `list_thread_ids_by_query` as a parameter.
- What `Grant.data_source_id in datasources` and a Python `and` inside `.filter` evaluate to depends on SQLAlchemy. Both are left abstract as parameter predicates (`inSources`, the data-source lookups of ingestion).
- Docstring types arrive already evaluated: `eval` of a type name that raises (a NameError, a syntax error) is not modelled. `eval("None")` is given as `NoneValue`, apart from `NoneType` (`TNone`).
- Ingest.ProcessZip: zip members are given as text. A member whose bytes are not UTF-8 makes the text-mode read raise UnicodeDecodeError and stops the zip; the model cannot express that failure.
- The AI pass that ingestion runs afterwards (`grant_search/ingest/ingest.py`, lines 308-323) is not chained into `Ingest`. `SendToAi` models that pass on its own.
- CleanUser.CleanEmailForUserAsWritten: as written, the cleaning loop never ends while a clean sender exists. The model runs it for a bounded number of rounds (`rounds`). What happens after those rounds is not modelled.
- Python's `str.lower` is modelled for ASCII letters only. Unicode case mapping is outside Dafny's string model.
- Strings.Like: a pattern that ends in a lone backslash, which PostgreSQL rejects with an error, matches nothing in the model. ILIKE lower-cases ASCII letters only, like `Lower`.

## Findings

| source | as written | input that shows it | evidently intended | confidence | as-written member | corrected member |
|---|---|---|---|---|---|---|
| grant_search/filter_grants.py:72-73 | the lower date bound is added under `if start_date_before:` and compares with `start_date_after` | `start_date_after` given without `start_date_before`: no lower bound applies; `start_date_before` given alone: the query compares with None and fails | each bound applies when it is given | not executed | GrantFilter.AsWrittenBounds | GrantFilter.IntendedQueryMeaning |
| grant_search/ai/filter_string_to_function.py:160-161 | the same guard on the lower bound in `_filter_grants_from_linear` | a search function with only `start_date_after`: grants starting before it are still selected | each bound applies when it is given | not executed | GrantQuery.LinearAsWrittenDropsLowerBound | GrantQuery.LinearIntendedMeaning |
| grant_search/ai/filter_string_to_function.py:204 | `grant.data_source.agency == "NSF"` compares an Agency row (or None) with a string | any NSF grant: the award-field description is never built | compare the agency's name, so that NSF grants are described by their award fields | not executed | GrantQuery.NsfBranchNeverTaken | GrantQuery.NsfDescribedByAward |
| grant_search/ingest/send_to_ai.py:141-144 | the old derived row is deleted and flushed, then `GrantDerivedData(**analysis.model_dump())` is passed the `summary` field, which is not a column, and raises | any grant that is classified successfully and has a derived row: the row is deleted and no new one is stored | replace the grant's derived row with the new analysis | not executed | SendToAi.AsWrittenLosesRow | SendToAi.IntendedUpsert |
| grant_search/web/web_api.py:47 | `json_for_grant` reads `grant.derived_data.summary`, but `derived_data` is a list | a poll of a job with one result past the start index fails | render each grant's fields and its reason | not executed | WebApi.ListingRaises | WebApi.JsonResults |
| cleanmail/gmail/clean_user.py:99-113 | `old_senders` is never extended, so every round finds every clean sender new again | a user with one sender marked clean: the `while True` loop never breaks, and `is_cleaning` is reset only when the loop raises | handle each clean sender once, then stop | not executed | CleanUser.AsWrittenFindsAllAgain | CleanUser.CleanEmailForUser |
| cleanmail/gmail/api.py:280 | history ids, which are decimal strings, are compared as strings | start id "999" and a record with id "1000": "999" is kept as the latest id | compare the ids as numbers | not executed | GmailApi.StringOrderMissesNewer | GmailApi.LatestIdIsMax |
| cleanmail/gmail/api.py:135 | `get_message_by_id_on_thread` passes `ormat="metadata"`; `messages().get` rejects the unknown keyword with TypeError before any request, and the function returns None in any case | any non-empty id list with max_items above 0: `list_messages_by_message_id` raises, and so does `list_messages_since_history_id` for a history that adds messages | pass `format="metadata"` and return the (id, message) pair | not executed | GmailApi.AsWrittenLosesResolved | GmailApi.ByIdMeaning |
| cleanmail/gmail/clean_user.py:120-130 | the `finally` block resets `is_cleaning` and stores the deleted count on a user loaded through `session`, then commits `new_session`, a fresh `Session()` that holds no change | a run that finishes: `is_cleaning` stays set, so a run within the next 7200 s is refused as already cleaning | commit the reset through the session that loaded the user | not executed | CleanUser.AsWrittenRefusesNextRun | CleanUser.CorrectedAdmitsNextRun |
