# Substack API client — a verified model of its core

This project models, in Dafny, the parts of the Substack API client that carry real logic. It proves properties of that model.

- **The `.env` editor** (`change_env.py`). It loads `KEY=value` lines into a dict and writes a dict back as lines. A prompt keeps the current value when the answer is blank. It assembles the five-key credential record.
- **The post inventory** (`getposts.py`). Each item an endpoint returns is classified into one of six statuses: `SCHEDULED`, `SCHEDULE_ERROR`, `PUBLISHED`, `DATE_ERROR`, `DRAFT`, `UNKNOWN`. The title falls back when missing. Records are collected in a dict keyed by post id, and a later sighting replaces an earlier one. The summary groups the records by status and sorts each group by date.
- **The REST endpoints** (`api_server.py`):
  - the content preview of the draft listing;
  - the two credential merges, `PUT /environment` and the webhook;
  - the mapping from a publish result to a response or an HTTP 500.

Python values are modelled as follows:

- JSON values are the datatype `Json.Json`; numbers are integers.
- An insertion-ordered Python dict is an association list, `OrderedDict.Dict`. Assigning an existing key keeps its position; a new key is appended.
- `str.strip` removes exactly the code points for which `str.isspace()` holds.
- A text file is the sequence of strings passed to `write`. Reading it yields the lines of Python's universal-newline iteration.
- `datetime.fromisoformat` and `json.loads` are parameters of the model. Each returns None where the Python call raises.
- The current time is a parameter `now`.
- The terminal answers, the file's lines, the account store's answer and the publish result are all inputs.

Every loop statement of the source is a Dafny method with a `while` or `for` loop. Each is proved against a specification function:

- `LoadEnvValues` against `EnvOf`;
- `GetAllPosts` against `InventoryOf`;
- `GroupByStatus` against `Grouped`;
- `ContentPreview` against `Preview`.

Lemmas then state what the source promises about those functions.

The list comprehension of api_server.py:290 is no loop statement. It is the recursive function `EnvUpdates.SuppliedNames`.

Modules:

- `Wrappers`, `Json`, `Http` — basic data types.
- `Text` — the Python `str` operations used.
- `OrderedDict` — the dict model.
- `TextFile` — writing and reading a text file.
- `StableSort` — Python's `sorted` for string keys.
- `ChangeEnv`, `PostStatus`, `Posts`, `PostSummary`, `DraftPreview`, `EnvUpdates`, `Publishing` — the modelled core.

## Model

| member | source | states |
|---|---|---|
| ChangeEnv.LoadEnvValues | change_env.py:10-23 | The loaded dict is the fold of the file's lines: each stripped, non-blank, non-comment line containing `=` assigns the text before its first `=` to the text after it. A missing file gives `{}`. |
| ChangeEnv.SplitEntry | change_env.py:18-21 | A stripped line contributes an entry iff it is non-empty, contains `=` and does not start with `#`. The key contains no `=` and key + "=" + value rebuilds the line. |
| ChangeEnv.LoadedKeys | change_env.py:17-21 | A key is in the loaded dict iff some line of the file assigns it. |
| ChangeEnv.LaterLineWins | change_env.py:17-21 | A key defined on several lines gets the value of the last of them. |
| ChangeEnv.SaveEnvValues | change_env.py:25-29 | Exactly one `key=value\n` string is written per entry, in dict order. |
| ChangeEnv.ParseEntryLine | change_env.py:18-21 | A written line parses back to its own key and value, when the key reads back (no `=`, no leading `#` or white space) and the value has no trailing white space. |
| ChangeEnv.SaveThenLoad | change_env.py:10-29 | Saving a storable dict and loading the file back gives the same dict, with its keys in the same order. |
| ChangeEnv.CurrentPreview | change_env.py:34 | The prompt shows a current value up to 50 characters unchanged. A longer one shows its first 50 characters followed by "...". |
| ChangeEnv.GetUserInput | change_env.py:31-37 | The result is the stripped answer. The exception is a blank answer with a non-empty current value, which returns that value unchanged. |
| ChangeEnv.Configured | change_env.py:46-74 | The assembled record has exactly the five keys PUBLICATION_URL, USER_ID, SID, SUBSTACK_SID, SUBSTACK_LLI, in that order. Each key holds the prompt result for its current value. |
| ChangeEnv.AssembleRecord | change_env.py:46-74 | The five assignments of `main` build exactly that record. |
| ChangeEnv.Configure | change_env.py:39-77 | `main` writes the rendering of the record assembled from the loaded file and the answers. |
| ChangeEnv.ConfigureDropsOtherKeys | change_env.py:46-77 | Any key other than the five is absent from the saved record. |
| ChangeEnv.BlankAnswersKeep | change_env.py:31-37 | With blank answers, each of the five keys keeps a non-empty current value. |
| ChangeEnv.BlanksKeepRecord | change_env.py:46-74 | Answering every prompt blank, starting from an assembled record, reproduces that record. |
| ChangeEnv.RerunWithBlanksIsIdempotent | change_env.py:39-77 | Rerun on the file it wrote, with every answer blank, the editor writes the same record again. |
| PostStatus.ParseDate | getposts.py:115 | A value that is not a string never parses, because `.replace` raises. |
| PostStatus.Classify | getposts.py:108-135 | A record carries `schedule_date` iff it has truthy `postSchedules` and ends SCHEDULED. That date is always a string. |
| PostStatus.SchedulesTakePrecedence | getposts.py:110-119 | With truthy `postSchedules`, the status is SCHEDULED, SCHEDULE_ERROR or UNKNOWN. It does not depend on `post_date`, `is_published` or the current time. |
| PostStatus.ScheduledByTrigger | getposts.py:110-117 | From schedules, SCHEDULED holds iff the first schedule is a dict whose `trigger_at` is truthy and parses. `schedule_date` is then that `trigger_at`. |
| PostStatus.ScheduleErrorCases | getposts.py:110-119 | SCHEDULE_ERROR holds iff the schedule list cannot be indexed into a dict, or the first `trigger_at` is truthy but does not parse. |
| PostStatus.UnknownCases | getposts.py:105-119 | UNKNOWN holds iff there are schedules and the first is a dict without a truthy `trigger_at`. |
| PostStatus.PostDateCases | getposts.py:120-131 | With no schedules and a truthy `post_date`: an unparsable date gives DATE_ERROR; unpublished gives SCHEDULED; a published date carrying an offset gives DATE_ERROR; otherwise SCHEDULED iff the date is after now, else PUBLISHED. |
| PostStatus.NoDateCases | getposts.py:132-135 | With neither schedules nor `post_date`: PUBLISHED iff `is_published` is truthy, else DRAFT. |
| PostStatus.DraftAndPublishedMeaning | getposts.py:108-135 | DRAFT holds iff there are no schedules, no date and the post is not published. PUBLISHED implies published, no schedules, and no future or offset-carrying date. |
| PostStatus.StatusOverTime | getposts.py:120-135 | As time passes, PUBLISHED stays PUBLISHED and SCHEDULED can only become PUBLISHED. Every other verdict stays unchanged. |
| PostStatus.TitleFallback | getposts.py:99 | The title is a truthy `title`; otherwise `draft_title` whenever that key exists, whatever its value; otherwise "NO TITLE". |
| Posts.MakePostInfo | getposts.py:165-204 | The record keeps the item's id, its endpoint label and `postSchedules` with its `[]` default, and carries the classifier's verdict. |
| Posts.Recorded | getposts.py:161-162 | A sighting yields a record iff it is a dict with an `id`. It is keyed by that id. |
| Posts.GetAllPosts | getposts.py:74-231 | The collected dict is the fold, in order, of `all_found_posts[id] = post_info` over the sightings that are dicts with an id. |
| Posts.InventoryOf | getposts.py:206 | The inventory never holds an id twice. |
| Posts.InventoryKeys | getposts.py:161-206 | An id is in the inventory iff some sighting is a dict with that id. |
| Posts.LastSightingWins | getposts.py:206 | The record kept for an id is the one built from its last sighting. |
| Posts.InventoryRecords | getposts.py:165-206 | Every record is stored under its own id and was built from some sighting. |
| PostSummary.WithStatus | getposts.py:245-250 | The records of a status: all of them, and nothing else. |
| PostSummary.GroupByStatus | getposts.py:245-250 | The grouping loop builds exactly `Grouped` of the records. |
| PostSummary.GroupedContents | getposts.py:245-250 | Each status present maps to exactly its records, in inventory order. A status no record has has no group. |
| PostSummary.GroupedDistinct | getposts.py:245-250 | No status has two groups. |
| PostSummary.InItsGroup | getposts.py:245-250 | Each record is in the group of its status and in no other. |
| PostSummary.GroupSizes | getposts.py:252-253 | The group sizes add up to the number of records. |
| PostSummary.StatusOrderMeaning | getposts.py:245-250 | The statuses in order of first appearance: each status that occurs is listed once, and each listed one first occurs before every status listed after it. |
| PostSummary.GroupedOrder | getposts.py:245-250 | The groups' keys are exactly the statuses in order of first appearance. |
| PostSummary.DisplaySummary | getposts.py:258-261 | One section per group, in order of the status's first appearance. Each lists the group sorted by `post_date`, else `draft_updated_at`, else ''. |
| PostSummary.SectionContents | getposts.py:258-261 | A section is a permutation of its status's records. It is sorted by key and keeps inventory order among equal keys. Its status differs from every other section's. |
| StableSort.SortBySorted | getposts.py:261 | `sorted` returns its input ordered by key. Its multiset ensures states that the result is a permutation. |
| StableSort.SortByStable | getposts.py:261 | `sorted` is stable: the elements with any one key keep their input order. |
| DraftPreview.Slice100 | api_server.py:205 | `[:100]` keeps a prefix of at most 100 characters or items and keeps a truthy value truthy. It raises on anything else. |
| DraftPreview.ContentPreview | api_server.py:193-211 | The two nested search loops, with their breaks and exception paths, compute `Preview`. |
| DraftPreview.ScanItemsMissing | api_server.py:203-206 | The inner search finds nothing iff every item is a dict that is no text item. |
| DraftPreview.ScanBlocksMissing | api_server.py:201-208 | The outer search finds nothing iff it passes over every block. |
| DraftPreview.PreviewNoContent | api_server.py:193-199 | The result is "No content" when there is no truthy body, or when the decoded body has no truthy `content`. |
| DraftPreview.PreviewFirstText | api_server.py:201-209 | When the blocks and items before them are well formed, the preview is the first 100 characters of the first text item of the first paragraph holding one. |
| DraftPreview.PreviewBlockCount | api_server.py:199-209 | With blocks but no text found, the preview is "<n> content blocks", n being the number of top-level blocks. |
| DraftPreview.PreviewParseFailure | api_server.py:194-211 | A body that is no string, does not decode, or decodes to something other than a dict gives "Content available". |
| DraftPreview.PreviewMalformedBlock | api_server.py:201-211 | A block that is no dict, met before any text, gives "Content available". |
| DraftPreview.ScanItemsCrash | api_server.py:203-206 | The inner search raises iff, after items that are dicts but no text items, it meets an item that is no dict, or a text item whose text cannot be sliced. |
| DraftPreview.ScanBlocksCrash | api_server.py:201-208 | The outer search raises iff, after blocks it passes over, it meets a block that is no dict, or a paragraph whose truthy content is no list or whose inner search raises. |
| DraftPreview.PreviewCrash | api_server.py:201-211 | When the search over the top-level blocks raises, the preview is "Content available". |
| DraftPreview.PreviewContentNotList | api_server.py:198-211 | A truthy top-level `content` that is no list gives "Content available". |
| DraftPreview.InfoOf | api_server.py:213-219 | The entry keeps the draft's id and the preview. The title is `draft_title` if present, else "Untitled". |
| DraftPreview.ListDrafts | api_server.py:185-221 | A `None` drafts result gives a 500 "Failed to fetch drafts". A draft without an id gives the 500 that the generic handler makes of the KeyError. Otherwise there is one entry per draft, in order. |
| EnvUpdates.SuppliedNamesMember | api_server.py:290 | A field name is reported iff its value is not None. |
| EnvUpdates.SuppliedNamesEmpty | api_server.py:366 | Nothing is reported iff nothing is supplied. |
| EnvUpdates.MergeSpec | api_server.py:268-279 | Merging assigns each supplied value under its key and leaves every other key unchanged. Existing keys keep their order and the keys stay distinct. |
| EnvUpdates.AssignRequest | api_server.py:268-279 | The five conditional assignments produce exactly the merge of the supplied fields into the loaded values. |
| EnvUpdates.UpdateEnvironmentApi | api_server.py:263-291 | `PUT /environment` writes the merged dict to `.env` and reports the supplied field names in declaration order. |
| EnvUpdates.ApiMergeChangesOnlySupplied | api_server.py:268-279 | A supplied field's key gets its value. An unsupplied field's key, and every key outside the five, keeps its loaded value. No loaded key is lost. |
| EnvUpdates.AssignCookies | api_server.py:346-363 | The four conditional blocks produce the merged values and the list of supplied field names, in order. |
| EnvUpdates.UpdateEnvironmentWebhook | api_server.py:338-385 | With nothing supplied, nothing is saved and the "No changes made" message is returned. Otherwise the merged values are saved and the message gives the number of changed fields. |
| EnvUpdates.WebhookSavesIff | api_server.py:366-376 | The webhook saves iff at least one value is supplied. |
| EnvUpdates.WebhookMergeSpec | api_server.py:349-363 | The webhook assigns each supplied value under its key. USER_ID and every other key keep the account's values. |
| EnvUpdates.WebhookNewAccount | api_server.py:339-343 | An unknown account starts from `{'USER_ID': user_id}`, and its USER_ID survives the merge. |
| Publishing.PublishOutcome | api_server.py:244-253 | The outcome is a success iff the result is non-null and its `success` is truthy. A success carries the result's `post_id` and `post_url`. Every failure is a 500. |
| Publishing.PublishMessage | api_server.py:244-253 | The result's own `message` is used on both paths whenever present. Otherwise the success text names the user, and the failure text is "Publishing failed". |
| Publishing.PublishFailures | api_server.py:251-253 | A null result, or one whose `success` is missing or falsy, gives exactly the 500 with the result's message or "Publishing failed". |
| Text.StripEmpty | change_env.py:34-35 | `strip()` gives the empty string iff the string is all white space. |
| Text.NatToStringValue | api_server.py:380 | `str(n)` is a decimal numeral denoting `n`. |
| OrderedDict.PutSpec | change_env.py:21 | `d[k] = v`: k now maps to v and other keys are unchanged. An existing key keeps its position; a new key is appended; the keys stay distinct. |
| OrderedDict.PutAllLastWins | change_env.py:17-21 | Over a sequence of assignments, the last one to a key decides its value. |
| OrderedDict.Rebuild | change_env.py:17-29 | Reassigning the entries of a dict with distinct keys, in order, into `{}` rebuilds it. |
| TextFile.SplitConcat | change_env.py:16-29 | Writing whole lines and iterating the file yields those same lines. |

## Left out

- Network access, the Substack endpoints' responses and the session are inputs of the model, not modelled code.
- `get_all_posts` flattens the endpoint responses into a sequence of sightings. The case `isinstance(data, list)`, the per-draft fetches of `INDIVIDUAL_DRAFTS` and the error handlers that skip a failed request are not modelled; the sightings are the input.
- Printing is left out. So are the `strftime` formatting and the hours-until-publication arithmetic in `display_summary` (getposts.py:262-290) and the terminal prompts of `change_env.py`.
- The greeting and confirmation lines that `main` prints are left out.
- Floating-point JSON numbers are not modelled (`Json.Num` is an integer). Nor is Python's `True == 1` hash equality of dict keys.
- Dict ids that would be unhashable in Python (lists, dicts) are also not modelled.
- PostSummary.DisplaySummary: requires every sort key to be a string. Python also sorts a group whose keys are all numbers, and raises TypeError on mixed key types; neither is modelled.
- The datetime library's ISO grammar is the parameter `iso`; its behaviour is not modelled.
- `json.loads` is the parameter `parseJson`; its behaviour is not modelled.
- pydantic validation of request and response models is not modelled. A non-integer draft id, a non-string title or preview, or a non-string publish message gives a 500 "Internal error" in the server; the model keeps the JSON values as they are.
- `set_active_account_env`, `load_account_env` and `save_account_env` (multi_account.py) are outside the model, and with them the 404 for an unknown account. The webhook model hands the merged values to the account store.
- `save_account_env` also sets USER_ID and chooses the file name; neither is modelled.
- `load_dotenv` after saving is left out.
- The generic `except Exception` handlers are modelled only for the missing draft id. Their other causes (I/O errors, validation errors) are outside the model.
- `publish_draft`, `get_unpublished_drafts` and the markup compiler are not part of this model. draft_create.py and draft_publish.py are not available.
- The webhook's timestamps (`datetime.now().isoformat()`) and the `env_file` field of its response are left out.
