# Insly2Pipedrive: a verified model of the synchronisation core

Insly2Pipedrive copies insurance customers and their policies from the
Insly policy system into the Pipedrive CRM. Each night it works as follows:

- It fetches the list of customer oids.
- It takes every customer from a fixed offset on.
- For each customer, it keeps the policies that expire within the next 30
  days.
- It then searches Pipedrive for the customer, each policy's deal and that
  deal's two notes. What the search finds is updated; what it does not find
  is created.
- Throttled (HTTP 429) fetches are queued and retried first.
- Other failures are retried with a doubling pause; only ValueErrors count
  against a budget of two.

On Saturdays it instead closes deals that are fully paid and expired. A
second pass processes each deal that has no seller, once per policy number.

This project models that logic in Dafny and proves what the code promises.

| file | module | models |
|---|---|---|
| `wrappers.dfy` | `Wrappers` | `Option` and `Result` |
| `py.dfy` | `Py` | decoded JSON values, Python truthiness, the exception kinds the code tells apart (`RemoteDisconnected`, `ValueError`, any other), and an HTTP exchange whose answer is supplied from outside |
| `strings.dfy` | `Strings` | digits, ASCII `str.lower()`, and Python's substring test |
| `utf8.dfy` | `Utf8` | the UTF-8 encoder and the `errors="ignore"` decoder |
| `dates.dfy` | `Dates` | `strptime` for `%d.%m.%Y` and `%Y-%m-%d`, `strftime("%Y-%m-%d")`, and `toordinal` |
| `helper.dfy` | `Helper` | `helper.py`: `truncate_utf8`, both regex validators as explicit scanners with their patterns as reference predicates, `html.escape`, `format_objects_to_html`, and `retry_requests` |
| `insly.dfy` | `Insly` | `insly.py`: the `Client` class that owns `retry_buffer`, `get_customer_policy` (a loop method proved against the functional `ShapeFrom`), `get_classifier_value`, and `get_customer_list` |
| `pipedrive.dfy` | `Pipedrive` | `pipedrive.py`: every request body of `Add.*` and `Update.*` as a map, `find_custom_field`, the `Search.*` result pickers, and what a write makes of its answer |
| `crm.dfy` | `Crm` | the CRM as `main.py` sees it: a search by (kind, key) followed by a create or an update. It is given as a value (`State`, `Upsert`) and as the mutable `Store` class |
| `sync.dfy` | `Sync` | `main.py`: `process_customer` (method `ProcessCustomer`, proved against `ProcessRun`), `main` (`RunMain` against `MainSpec`), `update_deals_with_no_seller`, and `filtered_auto_close` |

The methods that change state in place are these:

- `Insly.Client.GetCustomerPolicy` and `Helper.RetryRequests` change the
  queue;
- `Crm.Store.Save` and everything in `Sync` that calls it change the CRM.

Each of them is proved equal to a function of the old state. The properties
are then lemmas about those functions.

Outside effects are parameters:

- Every answer from the network is an `HttpAnswer` value. A body that is not
  JSON is `None`.
- Every clock reading is an `Instant`, counted in microseconds from
  0001-01-01.
- The retry loops of `retry_requests` and `process_customer` need not
  terminate. Their answers are therefore finite sequences (`drain`,
  `attempts`, `scripts`). A run whose sequence runs out ends as
  `OutOfAnswers` or `Stalled`, meaning the program would still be running.

Where the code and its docstrings disagree, the model follows the code:

- The window is `now <= end <= now + 30 days`. The docstring of
  `process_customer` speaks of "closed or ending within 21 days".
- A deal's status is the first installment's status string.
- Updates set `owner_id` too.

## Model

| member | source | states |
|---|---|---|
| Helper.TruncateUtf8 | helper.py:47-51 | a falsy value gives ""; otherwise the result is the longest character prefix whose UTF-8 encoding fits the bytes the Python slice keeps |
| Helper.TruncateFitsLimit | helper.py:50-51 | for a non-negative limit the result encodes in at most that many bytes |
| Helper.TruncatedDecode | helper.py:50-51 | decoding the first n bytes of an encoding with errors="ignore" drops only the character the cut went through |
| Helper.TruncateKeepsFittingString | helper.py:50-51 | a string whose encoding already fits comes back unchanged |
| Helper.TruncateIdempotent | helper.py:47-51 | truncating twice to the same limit equals truncating once |
| Utf8.DecodeEncode | helper.py:50-51 | decoding the encoding of any string gives it back |
| Utf8.DecodeIncomplete | helper.py:51 | a partial encoding of one character decodes to nothing under errors="ignore" |
| Utf8.EncodeChar | helper.py:50 | a character encodes in 1 to 4 bytes, its continuation bytes are 10xxxxxx and a multi-byte lead byte is at least 0xC0 |
| Helper.ScanEmail | helper.py:16-17 | when the scanner accepts, it returns a match whose parts obey the pattern and spell the string |
| Helper.ScanEmailComplete | helper.py:16-17 | every string the pattern matches is accepted |
| Helper.EmailValidIffPatternMatches | helper.py:14-17 | is_email_valid holds exactly when the pattern matches at the start: a non-empty run without @ or whitespace, an @, then a run holding a dot with a character on each side, with any trailing text |
| Helper.ScanPhone | helper.py:22-23 | when the scanner accepts, it returns a match whose optional +, (, ), separators and digit groups obey the pattern and spell the string |
| Helper.ScanPhoneComplete | helper.py:22-23 | every matching string is read back into exactly the same pieces |
| Helper.PhoneValidIffPatternMatches | helper.py:20-23 | is_phone_valid holds exactly when the anchored pattern matches, allowing one final newline |
| Helper.PhoneDigitCount | helper.py:22 | an accepted phone number holds 10 to 12 digits |
| Helper.EscapeChar | helper.py:32-40 | html.escape of one character: one of the five entities for & < > " ', else the character itself |
| Helper.Escape | helper.py:32-40 | escaped text has no raw < > " or ' and is 1 to 6 times as long |
| Helper.EscapeRoundTrip | helper.py:32-40 | unescaping escaped text gives it back, so escaping loses nothing |
| Helper.FieldTextMeaning | helper.py:32-40 | a missing or falsy field renders N/A; a string renders as text that unescapes back to it; any other value raises |
| Helper.RenderObject | helper.py:31-41 | the loop body yields the `<li>` block of the nine labelled lines in order, or the first field's exception |
| Helper.FormatObjectsToHtml | helper.py:26-44 | the document is the heading, each object's block in order, and `</ul>`; the first failing block's exception otherwise |
| Helper.RenderingsAt | helper.py:30-41 | the i-th block depends on the i-th object alone |
| Helper.DocumentSucceedsIff | helper.py:30-43 | the document renders exactly when every field of every object is missing, falsy or a string; otherwise it raises |
| Helper.DocumentAppend | helper.py:30-41 | the blocks of a concatenation are the blocks of both parts, in order |
| Helper.DocumentSingle | helper.py:28-43 | one object gives the heading, its block and the closing tag |
| Helper.DrainQueue | helper.py:5-10 | an emptied drain leaves the queue empty; running out of answers leaves it non-empty after one fetch per answer; an empty queue does nothing |
| Helper.DrainUnfold | helper.py:5-10 | one round pops the front entry and fetches it; a 429 re-appends the entry at the tail; an exception ends the drain |
| Helper.RetryRequests | helper.py:1-11 | the loop pops the client's queue and re-fetches in place; how it ends and the queue it leaves are what DrainQueue says |
| Helper.DrainFifo | helper.py:7 | entries are retried from the front, in queue order |
| Helper.DrainWithoutThrottle | helper.py:5-11 | without 429s every entry is retried once, in order, and the drain ends |
| Helper.DrainPermanentThrottle | helper.py:5-10 | under permanent 429s the queue only rotates (same multiset) and the drain never ends |
| Insly.GetClassifierValue | insly.py:94-106 | on 200 a known code maps to its label and anything else is returned unchanged; another status gives None; a body that is not JSON, a table that is not an object, or an unhashable value raises |
| Insly.ParseEnd | insly.py:26 | the end date parses as %d.%m.%Y to a real date; otherwise ValueError, or TypeError for a non-string |
| Insly.Title | insly.py:47 | the title is customer_name + " " + policy_no; anything but two strings raises |
| Insly.FirstInstallmentStatus | insly.py:54 | the status is that of the first payment entry; no entry or no key raises |
| Insly.FirstAddress | insly.py:33-38 | the address row is built from data['address'][0] and its three keys |
| Insly.KeptPolicies | insly.py:24-29 | what the filter keeps is no longer than the input, and each kept policy lies within the window |
| Insly.MakePolicyRowRowFor | insly.py:47-57 | a row that is built carries the composed title, the policy's number, currency, sum and description, the end date rewritten as %Y-%m-%d, the first installment's status, and as insurer and product type what get_classifier_value gives for the policy's two codes |
| Insly.ShapeInvariant | insly.py:21-61 | one policy row per kept policy, in input order; at most one customer row, present exactly when some policy is kept; the address row, built from data['address'][0], only with it, exactly when the response has an address key |
| Insly.StepKeepsShape | insly.py:24-61 | one loop iteration keeps the lists matched to the policies kept so far, the address row's contents included |
| Insly.ShapeFailureSticks | insly.py:24-57 | once a policy raises, the rest of the loop does not run |
| Insly.ShapeValueErrorIsDate | insly.py:26 | a ValueError out of the loop always comes from an end date that does not parse |
| Insly.NoKeptNoRows | insly.py:59-61 | when no policy is in the window, all three lists are empty |
| Insly.WindowByDays | insly.py:25-29 | off midnight, a policy is kept exactly when it ends after today and at most 30 days from today; one ending today is excluded |
| Insly.WindowAtMidnight | insly.py:25-29 | at exactly midnight, a policy ending today is kept |
| Insly.KeptDateRoundTrip | insly.py:51 | a kept row's end date, read back as %Y-%m-%d, is the same calendar date as the policy's %d.%m.%Y end date |
| Insly.ShapePolicies | insly.py:18-61 | the in-place loop builds what ShapeFrom gives |
| Insly.Client.constructor | insly.py:5 | the queue starts empty |
| Insly.Client.GetCustomerPolicy | insly.py:9-71 | returns PolicyOutcome; on 429 it appends (oid, counter) to the queue, and on any other answer it leaves the queue unchanged |
| Insly.CollectOids | insly.py:86 | the oids are each item's customer_oid, in order; a non-object item or a missing key raises |
| Insly.CustomerOids | insly.py:86 | a list gives its items' oids; an empty string or object gives none; any other value raises |
| Insly.GetCustomerList | insly.py:74-91 | on 200 the oids of data['customers'] in order; another status gives None; a body that is not JSON or has no customers key raises |
| Dates.ParseDayMonthYear | insly.py:26 | what %d.%m.%Y accepts is a real calendar date |
| Dates.DayMonthYearRoundTrip | insly.py:26 | %d.%m.%Y reads back the zero-padded day-first rendering of any date |
| Dates.IsoRoundTrip | insly.py:51 | %Y-%m-%d reads back what %Y-%m-%d writes |
| Dates.MakeDate | insly.py:26 | a date is built exactly when day, month and year form a real date |
| Strings.Find | pipedrive.py:57 | `needle in hay` finds the first position of the needle, or shows there is none |
| Strings.Lower | pipedrive.py:57 | lowercasing maps each character on its own and keeps the length |
| Pipedrive.ScanOptions | pipedrive.py:56-58 | whatever stops the option loop (an option without a label or an id, a non-string label or query) is a TypeError or KeyError, never a ValueError |
| Pipedrive.FindCustomField | pipedrive.py:38-64 | a falsy label returns None at once; a raised request propagates; a body that is not JSON raises ValueError; another status gives None |
| Pipedrive.ScanOptionsFirstMatch | pipedrive.py:55-58 | over well-formed options, the scan returns the id of the first option whose lowercased label contains the lowercased query, and None when none does |
| Pipedrive.FindCustomFieldFirstMatch | pipedrive.py:39-64 | on any 200 answer whose data.options is a list of options, whatever other keys it holds: None for an empty label, otherwise the first match's id, and None exactly when no option matches |
| Pipedrive.FindCustomFieldScans | pipedrive.py:52-58 | a non-empty label on any 200 answer whose data.options is a list is looked up by scanning that list |
| Pipedrive.SearchEntity | pipedrive.py:68-137 | a raised request propagates; a body that is not JSON raises; another status gives None; a hit only comes from a 200 answer |
| Pipedrive.SearchFirstOnly | pipedrive.py:77-83 | on any 200 answer with a non-empty data.items list, the result is the first item's id and name or title, whatever follows it |
| Pipedrive.SearchNoItems | pipedrive.py:85-86 | on any 200 answer, falsy data.items (null, an empty list) gives (None, None) |
| Pipedrive.SearchNote | pipedrive.py:140-154 | a raised request propagates; a body that is not JSON raises; another status gives None |
| Pipedrive.SearchNoteFirstOnly | pipedrive.py:146-151 | on any 200 answer, the note search returns data[0].id and ignores the rest, raising when that note has no id; null data gives None; an empty list raises |
| Pipedrive.OrganizationBodies | pipedrive.py:158-178 | the create body is owned by the creator, named, time-stamped, and has an address exactly when a row is given, taken from the first row; the update body is exactly name, owner and visibility |
| Pipedrive.Accepted | pipedrive.py:203 | a falsy value is left out; a string is checked by the validator; any other value raises |
| Pipedrive.PersonBodyChecks | pipedrive.py:202-220 | the e-mail is checked first; either check raising aborts the body; otherwise the body lists what both checks answered |
| Pipedrive.PersonFieldsContents | pipedrive.py:192-220 | a person body is owned and named and carries the oid custom field; it has emails exactly when the e-mail passed, and phones exactly when the phone passed |
| Pipedrive.WonTimeOf | pipedrive.py:263-264 | won_time fails exactly when the end date does not parse as %Y-%m-%d, with ValueError |
| Pipedrive.WonTimeOfIsoDate | pipedrive.py:263-264 | for a date the policy fetch wrote, won_time is that date followed by T09:00:00Z |
| Pipedrive.DealBody | pipedrive.py:233-260 | the product lookup runs before the insurer lookup, and the first one that raises aborts the body |
| Pipedrive.DealBodyUsesLookups | pipedrive.py:250-254 | with both lookups answered, the body carries the ids they found, or None where they found nothing |
| Pipedrive.DealBodyLinkAndOwner | pipedrive.py:236-279 | every deal body has the creator as owner, the title, currency, value, status, close date and custom fields of the row, and exactly one link: org_id for 'org', person_id otherwise |
| Pipedrive.DealBodyWon | pipedrive.py:262-265 | for a won deal the body fails exactly when the end date does not parse, with ValueError |
| Pipedrive.DealBodyWonStage | pipedrive.py:262-265 | a won deal gets won_time and stage 5 and no lost_time, on create and update alike |
| Pipedrive.DealBodyNotWon | pipedrive.py:272-274 | when not won, a new deal gets won_time and lost_time "" and no stage; an update adds none of the three keys |
| Pipedrive.NoteBody | pipedrive.py:291-298 | a note body carries the content, the deal id and the creator as user |
| Pipedrive.WriteResult | pipedrive.py:180-187 | a raised request propagates; only an accepted status returns an id, and only for the writes that return one; another status gives None, or raises when the body is not JSON |
| Pipedrive.AddReturnsCreatedId | pipedrive.py:182-184 | on any accepted answer whose data.id is present, a create returns that id, and a note write reads it and returns nothing |
| Crm.UpsertNeverBoth | main.py:68-73 | each search-then-write appends exactly one write: a create exactly when the search finds nothing, otherwise an update of the found id; afterwards the search finds the returned id |
| Crm.UpsertKeepsOthers | main.py:68-75 | an upsert adds at most its own key to what the search finds and changes no other entry |
| Crm.UpsertKeepsValid | main.py:70-71 | a created record gets a fresh id, so ids stay distinct |
| Crm.UpsertIdempotent | main.py:89-98 | repeating a search-then-write only updates the record the first one left |
| Crm.Store.Save | main.py:68-73 | the in-place store does what Upsert says |
| Sync.NextDelay | main.py:133 | the next delay is double the delay or 60, whichever is smaller |
| Sync.BackoffRange | main.py:131-133 | every pause lies between 5 and 60 seconds |
| Sync.BackoffValues | main.py:55 | the pauses are 5, 10, 20, 40 and then 60 for ever |
| Sync.EntityKind | main.py:66 | type 11 takes the organization path, any other value the person path |
| Sync.SyncCustomer | main.py:66-112 | the call-by-call pass over one customer leaves the store and returns the exception as CustomerPass says, including an exception after the last write |
| Sync.CustomerPassRaisesAfterLastWrite | main.py:107-113 | when reading the answer of the last note write raises, the pass has made exactly the writes of a clean pass and ends with that exception |
| Sync.CustomerPassEntity | main.py:66-86 | a fault-free pass raises nothing, writes 1 + 3n records after the earlier ones, and writes the entity first (an organization exactly for type 11) under the customer's oid |
| Sync.CustomerPassDeals | main.py:88-112 | after the entity, a fault-free pass writes for each policy in order its deal, found by title, then that deal's objects note and payment note |
| Sync.PolicyPassGrows | main.py:88-112 | the policy loop only appends writes and never changes a record the search found |
| Sync.PolicyPassStopped | main.py:88-105 | a pass that raises stops before the deal, after it, or after the objects note, with only those writes made |
| Sync.PolicyPassCovers | main.py:89-112 | after a fault-free pass, the search finds every deal and both of its notes |
| Sync.PolicyPassOnlyUpdates | main.py:89-112 | over records that are already there, a fault-free pass creates nothing and leaves the index as it was |
| Sync.ResyncOnlyUpdates | main.py:61-113 | running the same fault-free pass twice: the second run only updates, and what the search finds does not change |
| Sync.AttemptOnce | main.py:61-113 | one pass of the try block puts the customer on the queue exactly when the fetch is throttled |
| Sync.TryOnce | main.py:60-113 | one pass of the try block, call by call, is what AttemptOnce says |
| Sync.RetryUnfold | main.py:59-133 | a synced pass or an empty customer returns; the ValueError that uses up the budget returns with no pause; any other exception pauses and retries with the next delay |
| Sync.RetryLoop | main.py:55-133 | the while loop, with its mutable delay and attempt count, is what Retry says from delay 5 and no attempts used |
| Sync.ProcessCustomer | main.py:13-133 | the drain, then the retry loop, call by call, as ProcessRun says |
| Sync.RetryBackoff | main.py:131-133 | the k-th pause of a run that starts at Backoff(n) is Backoff(n + k) |
| Sync.RetryPauses | main.py:59-133 | every pass but the last raised and was followed by a pause; the loop condition never ends a run; no exception escapes the loop |
| Sync.RetryLastEnd | main.py:63-125 | the last pass says how the run ended: synced, no customer, or the budget-using ValueError |
| Sync.RetryBudget | main.py:118-125 | only ValueErrors use the budget; a run gives up exactly when it meets the last one it allows |
| Sync.ProcessRunDrainFirst | main.py:54 | an exception out of the queue drain propagates before any pass; a drain that runs out of answers makes no pass |
| Sync.ProcessRunBackoff | main.py:55-133 | the pauses of process_customer are 5, 10, 20, 40, 60, 60, ... |
| Sync.ProcessRunRetries | main.py:57-129 | process_customer never ends by the loop condition; it gives up exactly at the second ValueError, right after it and with no pause; other exceptions retry after a pause; an empty customer or a completed pass returns at once |
| Sync.Slice | main.py:177 | `s[start:]` keeps the elements from start on, and nothing when start is past the end |
| Sync.Enumerate | main.py:181 | enumerate pairs each item with start plus its index |
| Sync.ScheduleAt | main.py:175-181 | main takes the customers from position 18616 on, in order, each once, with the counter equal to the 1-based position in the list; a shorter list gives nothing |
| Sync.RunScheduleUnfold | main.py:181-182 | one customer of the loop: an exception out of process_customer aborts main; a customer still retrying halts it; otherwise the loop goes on with the next customer |
| Sync.RunMain | main.py:136-183 | main, one customer at a time, is what MainSpec says |
| Sync.RunScheduleInOrder | main.py:181-182 | the loop processes the schedule in order, each customer once, and all of it only when it runs to its end |
| Sync.MainProcessesSchedule | main.py:170-182 | a failing list request propagates; no customers returns at once; otherwise the customers processed are, in order, a prefix of the schedule, all of it when the loop finishes |
| Sync.UpdateDealsWithNoSeller | main.py:207-229 | the loop with its in-place cache makes the calls Dedup gives, and the cache holds their numbers |
| Sync.DedupFirstOccurrences | main.py:213-227 | no call for the placeholder; each number once, in first-occurrence order, for the deal where it first occurs; every number that occurs is cached |
| Sync.DedupGrowth | main.py:221-225 | the cache grows by one exactly at a deal whose number is neither the placeholder nor already cached |
| Sync.FilteredAutoClose | main.py:186-204 | the loop makes the status calls Closed gives |
| Sync.ClosedExactly | main.py:197-203 | a deal is set to won exactly when its policy is both fully paid and expired |
| Sync.ClosedInOrder | main.py:191-199 | deals are set to won in list order, each at most once, with its own id |

## Left out

- HTTP is not modelled. This covers URLs, tokens, the `PIPEDRIVE_TOKEN`
  global, the constructor's token check, headers and query parameters.
  Every exchange is an `HttpAnswer` supplied by the caller.
- Prints, tracebacks and `time.sleep` are left out. The pauses of
  `process_customer` are returned as numbers. The 40-second wait of
  `retry_requests`, the 5-second wait after a new deal and the 1-second
  waits of the loops are not modelled.
- `datetime.now`/`datetime.today` are parameters.
- `run_daily`, with its weekday choice and midnight arithmetic, is left out
  because it is a scheduler around the modelled functions.
- `spreadsheet_communication.py` is not part of this model.
  `process_table_policies` is therefore no more than a possible fault
  (`Sync.Fault`) inside a customer pass, and a recorded call in
  `update_deals_with_no_seller`.
- These six are not defined in the source. Each is an oracle: its result is
  a parameter, or, inside a customer pass, its exception a `Fault`.
  - `is_it_fully_paid` and `is_it_expired` are `paid` and `expired`.
  - `Search.all_deals` gives the `deals` argument.
  - `Update.deal_status` is a recorded `StatusCall`.
  - `Search.payment_table_note` and `process_table_policies` are
    represented as described.
- Sync.UpdateDealsWithNoSeller and Sync.FilteredAutoClose: the oracles
  never raise. In the source an exception from `process_table_policies`
  (`main.py:227`), `is_it_fully_paid` or `is_it_expired` (`main.py:197-198`)
  or `Update.deal_status` (`main.py:199`) ends the loop and leaves the
  function; neither model has a `Fault` for it.
- The tuple arities in `main.py` do not match the other files.
  - `main.py:61` unpacks five values from the three `get_customer_policy`
    returns. As written, this raises ValueError on every fetch that
    succeeds.
  - `main.py:89` reads index 10 of a nine-field row and unpacks three values
    from a two-value search.
  - `main.py:71` passes two arguments to the three-parameter
    `Add.organization` (`pipedrive.py:158`).
  - `main.py:92` passes four arguments to the three-parameter `Add.deal`.
  - `customer_i[0][5]` at `main.py:92`, `103`, `105`, `110` and `112`
    reads index 5 of the five-field customer row built at `insly.py:44`,
    an IndexError.
  - `main.py:103` and `110` pass three arguments to the two-parameter
    `Add.note` (`pipedrive.py:291`).
  - `main.py:105` and `112` pass four arguments to the three-parameter
    `Update.note` (`pipedrive.py:424`).
  - The model joins the pieces through abstract interfaces: a fetch yields
    the three lists; a deal is searched by its title; `object_i` and
    `payment_table` are counted, not computed.
- Sync.PolicyPassCovers, Sync.PolicyPassOnlyUpdates and Sync.ResyncOnlyUpdates
  hold of the idealised store, whose search always answers and finds
  exactly what was written under the same key. Three behaviours of the
  source are not captured, and each can make a re-run create a duplicate:
  - A search that gets a status other than 200 returns `None`
    (`pipedrive.py:88-90`, `111-113`, `134-136`, `152-154`). `main.py`
    then creates the record again (`or (None, None)` at `main.py:68`,
    `79`, `89`; the `None` check at `main.py:102`). `Pipedrive.SearchEntity`
    models that answer as `NoAnswer`, but a customer pass does not take
    it: every search failure is a `Fault` that stops the pass.
  - `Search.note` (`pipedrive.py:140-151`) returns the deal's first note,
    whichever one it is. The store keeps the objects note and the payment
    note under two separate keys.
  - The body of `Add.organization` (`pipedrive.py:163-178`) carries no
    oid, yet `main.py:68` searches for the organization by its oid. The
    store indexes it under that oid, so the model's search finds it; the
    real search need not.
- The CRM store keeps only (kind, search key, id) per record. The payloads
  the body builders of `Pipedrive` compute are not stored. A write is
  assumed to succeed with a fresh id, so a failing create (which returns
  `None` in the source) is represented only as a `Fault`.
- A search in the CRM store finds exactly the records written under the
  same key. Pipedrive's fuzzy term search, and records made outside the
  program, are not modelled.
- Insly.Client.GetCustomerPolicy: one clock reading and one classifier
  answer serve every policy of the call. The source reads the clock and
  requests the classifier table anew for each policy and each lookup.
- `retry_requests` and the `process_customer` loop need not terminate. They
  consume finite answer sequences, and running out is its own outcome
  (`OutOfAnswers`, `Stalled`, `Halted`).
- Strings.Lower: `str.lower()` only maps ASCII letters. Unicode case
  mapping is not modelled.
- Helper.IsSpace: `\s` matches the six ASCII whitespace characters only:
  space, `\t`, `\n`, `\r`, `\v` and `\f`. Python's `\s` in a str pattern
  also matches U+001C to U+001F, U+0085, U+00A0 and the other Unicode
  spaces.
- Dates.ParseDayMonthYear: a day, month or year field is read from ASCII
  digits only (`Strings.IsDigit`). The patterns of CPython's `strptime` use
  `\d`, which also accepts any other Unicode decimal digit.
- Py.Value has no floating-point case. A JSON number with a fraction or an
  exponent cannot be represented, so a policy whose `payment_sum`
  (`insly.py:49`) is such a number is outside the model. Python's
  cross-type equality is lost with it: `customer_i[0][4] == 11`
  (`main.py:66`) also holds for `11.0`, `policy_number in cache`
  (`main.py:221`) treats `True` and `1` as equal, and `obj.get(k) or 'N/A'`
  (`helper.py:32-40`) maps `0.0` to `N/A`.
- Utf8.DecodeIgnore: only byte strings that are prefixes of a valid
  encoding are decoded as Python does. These are all that `truncate_utf8`
  produces. Strings holding lone surrogates, which Python cannot encode,
  are not representable.
- Helper.TruncateUtf8: Python's dynamic typing of `value` is not modelled.
  The argument is a string or `None`; a non-string truthy value, which would
  raise, is not covered.
- The `custom_field_ids.json` file read by `find_custom_field` is not
  modelled. The field's option list arrives as the request's answer.
- Exceptions are three kinds: `RemoteDisconnected`, `ValueError` and any
  other. That is as many as `process_customer` tells apart.
