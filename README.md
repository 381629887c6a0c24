# Fridge leftovers tracker: a Dafny model

This project models the data handling of a small fridge-leftovers tracker.
A Notion database holds one page per leftover. `daily_check.py` builds a
morning text report from the pages that are not archived. `leftovers_app.py`
is a Streamlit app. It creates a page for a new leftover, reads queried pages
back for display, and archives a page with an "Eaten" or "Tossed" verdict.

The files:

- `wrappers.dfy`: `Option` and `Result`. `Result` works with `:-`, so an
  exception propagates the way a raised Python exception leaves a `try`
  block.
- `py_values.dfy` (module `PyValues`): the Python values the code handles.
  These are strings, integers, booleans, `None`, lists and dicts. A dict is
  an insertion-ordered list of entries. Only entry lists without a repeated
  key stand for Python dicts; `Lookup` reads the first entry for a key. The module also
  models the operations the code applies to them: `dict.get`, `[...]`
  subscripts (with negative list indices), `in`, `for` iteration, `bool(...)`,
  `d[k] = v`, f-string `str(...)`, and `str(e)` of the exceptions raised
  (`KeyError`, `IndexError`, `TypeError`, `AttributeError`), in CPython 3.12
  wording.
- `daily_check.dfy` (module `DailyCheck`): `get_fridge_summary`. The
  specification is the function `Summary`. The method `GetFridgeSummary`
  keeps the source's `msg +=` loop and is proved equal to `Summary`. The
  lemmas state what the report looks like.
- `leftovers_app.dfy` (module `LeftoversApp`): the `new_page` request of
  `add_leftover`, including the in-place `Photo` insertion; `add_leftover`'s
  success and error results; `date.isoformat()`; the per-page decoding of
  the inventory view; and the two verdict patches.

Foreign calls are parameters:

- The Notion query's outcome is an input. It is either the response dict or
  the text of the exception the call raised.
- The Cloudinary upload's outcome is an input: `None` when no photo was
  taken, the response dict, or the exception text.
- The create call is a function. It maps the page sent to `None` (success)
  or to the text of the exception it raised.
- `datetime.now().date()` is the parameter `today`.

Python values cannot be changed in place here. So the report builder cannot
modify the pages it reads. The one in-place update in the core is
`new_page["properties"]["Photo"] = ...`. It is modelled as `SetItem` on the
properties dict before that dict is placed in the page. `new_page` holds the
same dict object, so the resulting value is the same.

The report's exact texts, as daily_check.py writes them:

- A non-empty report starts with the header "🍱 Morning Fridge Update:"
  and a newline.
- The empty-fridge reply is "🧊 Your fridge is empty! No leftovers to worry
  about today.".
- Every page line ends in a newline, so a non-empty report ends with one.
- A first title element without `text`, or whose `text` has no `content`,
  raises `KeyError`. The whole result is then "❌ Error checking fridge: "
  followed by `str` of that error, the quoted key.
- A non-empty report has 1 + |pages| newlines if and only if no food or days
  text itself contains a newline (`DailyCheck.ReportLineCount`).

## Model

| member | source | states |
|---|---|---|
| PyValues.Get | daily_check.py:26-33 | `d.get(k, default)` on a dict gives the value under `k`, or `default` when `k` is absent. On any other value it fails with an `AttributeError` naming the type and `get`. |
| PyValues.Subscript | leftovers_app.py:100-106 | `d[k]` succeeds exactly when `k` is a key of the dict, else `KeyError(k)`. A list index succeeds exactly when it is in range, negative indices counting from the end, else `IndexError`. Numbers, booleans and `None` raise `TypeError`. |
| PyValues.SetItem | leftovers_app.py:48-51 | After `d[k] = v`, `k` maps to `v`. Every other key keeps its value. The key order is unchanged when `k` was present, and `k` is appended at the end otherwise. |
| PyValues.Contains | leftovers_app.py:104-105 | `name in d` on a dict is key membership. On a list it is element membership, and on a string it is the substring test. It raises `TypeError` exactly for numbers, booleans and `None`, with CPython's text `argument of type '<type>' is not iterable`. |
| PyValues.Iterate | daily_check.py:25 | `for` over a list yields its elements, and over a dict its keys in insertion order. It raises `TypeError` exactly for numbers, booleans and `None`, with CPython's text `'<type>' object is not iterable`. |
| PyValues.Str | daily_check.py:35 | `str` of a string is the string itself, and `str(None)` is "None". |
| PyValues.Truthy | daily_check.py:21 | `bool(v)` is false exactly for `None`, `False`, 0, "", [] and {}. |
| PyValues.StrRepr | daily_check.py:39 | `repr` of a str is quoted with the same quote at both ends. The quote is `"` exactly when the text holds a `'` and no `"`. Text of printable ASCII without a backslash or a quote comes out as itself in single quotes. |
| PyValues.EscapePlain | daily_check.py:39 | Printable ASCII text without a backslash or a quote is written unescaped between either quote. |
| PyValues.Message | leftovers_app.py:56 | `str(e)` of a foreign exception or a `TypeError` is its text. `str` of a `KeyError` for a string key is text between matching quotes, `'` or `"`. When the key is printable ASCII without a backslash or a quote, it is exactly the key in single quotes. |
| DailyCheck.GetFridgeSummary | daily_check.py:12-39 | The `msg +=` loop returns exactly `Summary(response)`. That covers the empty message, the header and lines, and the error text when anything inside the `try` raises. |
| DailyCheck.Outcome | daily_check.py:13-36 | The `try` block's result: a query that raises gives its exception, and a successful result is the empty-fridge text or starts with the header. |
| DailyCheck.Summary | daily_check.py:12-39 | The returned text is the empty-fridge text, a report starting with the header, or the error text. It starts with the error prefix if and only if the `try` block raised. |
| DailyCheck.PageFields | daily_check.py:26-33 | `page.get("properties", {})` raises `AttributeError` when the page is not a dict. A dict page without `properties` reads as food "Unknown" and days "N/A". |
| DailyCheck.FoodName | daily_check.py:29-30 | The `.get` chain raises `AttributeError` when `properties` is not a dict. A dict without `Food` gives "Unknown". |
| DailyCheck.DaysLeft | daily_check.py:33 | The `.get` chain raises `AttributeError` when `properties` is not a dict. A dict without `Days Left` gives "N/A". |
| DailyCheck.Line | daily_check.py:35 | A page line is "- ", then the food text, then ": ", then the days text, then a newline, each at its position: five characters beyond the two texts. |
| DailyCheck.EmptyFridge | daily_check.py:19-22 | The report is the fixed empty message if and only if the query gave a dict whose `results` is missing or falsy. |
| DailyCheck.ReportLayout | daily_check.py:24-36 | For a non-empty list of readable pages, the report is the header followed by one `- {food}: {days}` line per page, in input order. The report ends with a newline. |
| DailyCheck.ReportLineCount | daily_check.py:24-35 | The report has exactly 1 + \|pages\| newlines if and only if no food or days text holds a newline. It always ends with a newline. |
| DailyCheck.ConcatNewlines | daily_check.py:25-35 | The page lines hold at least one newline each. They hold exactly \|pages\| in total if and only if every page is a single line. |
| DailyCheck.LineHasOneNewline | daily_check.py:35 | A page line holds exactly one newline if and only if its food and days texts hold none. |
| DailyCheck.BodyIsConcat | daily_check.py:25-35 | When every page reads without raising, the loop's text is the pages' lines joined in input order, one line per page. |
| DailyCheck.BodyFailsAt | daily_check.py:25-35 | When page `j` is the first whose reading raises, the loop stops there with that exception and no text. |
| DailyCheck.FirstFailingPage | daily_check.py:25-39 | When page `j` is the first page whose fields raise, the whole result is the error prefix and `str` of that exception. No partial report is returned. |
| DailyCheck.QueryFails | daily_check.py:15-39 | A query that raises gives the error prefix followed by the exception's text. |
| DailyCheck.FoodDefaultsToUnknown | daily_check.py:29-30 | `food` is "Unknown" when `Food` or its `title` is absent, or when the title list is empty. |
| DailyCheck.FoodIsFirstTitleContent | daily_check.py:29-30 | `food` is the `text.content` of the first title element when it is present. |
| DailyCheck.FoodLookupRaises | daily_check.py:30 | A first title element without `text`, or whose `text` lacks `content`, raises `KeyError` for that key. |
| DailyCheck.DaysDefaultsToNA | daily_check.py:33 | `days` is "N/A" when `Days Left`, its `formula`, or the formula's `string` is absent. |
| DailyCheck.DaysIsFormulaString | daily_check.py:33 | `days` is the formula's `string` when all three levels are present. |
| DailyCheck.PageWithoutProperties | daily_check.py:26-35 | A page without `properties` contributes the line "- Unknown: N/A". |
| DailyCheck.OnePageReport | daily_check.py:24-36 | A single readable page gives the header followed by `- {food}: {days}` and a newline. |
| DailyCheck.PastaReport | daily_check.py:24-36 | A single page with food "Pasta" and days "2 days" gives the header followed by "- Pasta: 2 days" and a newline. |
| LeftoversApp.IsoFormat | leftovers_app.py:38-39 | `isoformat()` is ten characters with dashes at positions 4 and 7. |
| LeftoversApp.IsoRoundTrip | leftovers_app.py:38-39 | Parsing a date's ISO text gives back that date. The ISO text is the only YYYY-MM-DD text that parses to that date. |
| LeftoversApp.BasePropertiesContent | leftovers_app.py:36-45 | The properties literal has exactly the eight keys, in order. Each key holds its form value: the title and notes as one-element text lists, both dates as ISO text, and `Archived` as checkbox `false`. It has no `Photo` key. |
| LeftoversApp.PhotoKeepsBase | leftovers_app.py:48-51 | Setting `Photo` leaves the eight base properties as they were. |
| LeftoversApp.BuildPage | leftovers_app.py:34-51 | The page built is the create request. Its keys are `parent` and `properties`. `parent.database_id` is the database id. The properties are the eight base entries plus a `Photo` entry at the end if and only if the image URL is truthy. That entry is one external file named "Photo_" + food name with that URL. |
| LeftoversApp.UploadedImage | leftovers_app.py:29-32 | Without a photo the image URL is `None`, which is falsy. A failed upload gives its exception. A response dict gives its `secure_url`, and raises `KeyError('secure_url')` when that key is missing. |
| LeftoversApp.AddLeftover | leftovers_app.py:26-56 | A page is sent exactly when the upload step did not raise. The call returns `(True, "Added to the fridge!")` exactly when a page was sent and the create call did not raise. Otherwise it returns `(False, str(e))` for the upload's or the create call's exception. |
| LeftoversApp.PhotoOnlyWithImage | leftovers_app.py:29-51 | The created page has a `Photo` property if and only if a photo was uploaded and the response's `secure_url` is truthy. |
| LeftoversApp.CreatedPageIsListed | leftovers_app.py:44 | Every created page passes the inventory query's `Archived = false` filter. |
| LeftoversApp.DecodeCost | leftovers_app.py:103 | `cost` succeeds exactly when `Meal Cost.number` can be read. It is that number when truthy, and 0 when it is `None` or 0. |
| LeftoversApp.FormulaOr | leftovers_app.py:104-105 | `status` and `days_left` are the formula strings when their key is present. Otherwise they are the given default. |
| LeftoversApp.DecodeRow | leftovers_app.py:99-106 | A decoded row's cost is always truthy or 0. |
| LeftoversApp.DecodeRowNeedsPropertiesAndId | leftovers_app.py:100-101 | A page without `properties` raises `KeyError('properties')`. A page with `properties` but without `id` raises `KeyError('id')`. |
| LeftoversApp.DecodeFoodCases | leftovers_app.py:102 | The food is "Unknown" for an empty title list. Otherwise it is the first title's `text.content`. |
| LeftoversApp.DecodePhotoCases | leftovers_app.py:106 | The photo is `None` for an empty file list. Otherwise it is the first file's `external.url`. |
| LeftoversApp.DecodeFood | leftovers_app.py:102 | The food read raises `KeyError('Food')` when the properties have no `Food`, and `KeyError('title')` when `Food` has no `title`. |
| LeftoversApp.DecodePhoto | leftovers_app.py:106 | The photo read raises `KeyError('Photo')` when the properties have no `Photo`, and `KeyError('files')` when `Photo` has no `files`. |
| LeftoversApp.CreatedPageDecodes | leftovers_app.py:100-106 | Take the properties a create request with a photo sent, read back unchanged next to an `id`. Decoding them gives back the food name, the cost and the image URL. Status and days left are "Unknown" and "N/A", because the request has no formula properties. |
| LeftoversApp.VerdictPatch | leftovers_app.py:121-130 | A verdict patch has exactly the keys `The Verdict` and `Archived`, and its `Archived` checkbox is `true`. |
| LeftoversApp.VerdictUpdate | leftovers_app.py:121-130 | The update targets the given page id and sets `Archived` to `true`. |
| LeftoversApp.VerdictsDifferOnlyInLabel | leftovers_app.py:122-128 | The Eaten and Tossed patches agree on every key except `The Verdict`, where their labels differ. |
| LeftoversApp.VerdictArchives | leftovers_app.py:121-130 | After a verdict is applied, the page carries that verdict label and is archived, so it no longer passes the inventory filter. Every other property is unchanged. |

## Left out

- The Notion client, `databases.query`, `pages.create` and `pages.update`: these are network calls. Their outcomes are inputs. `ApplyPatch` models how an update sets the named properties.
- The Cloudinary configuration and upload: a foreign service. Only its outcome is modelled.
- The ntfy.sh POST, the environment variables and the module-level script code of daily_check.py: network I/O and process configuration.
- The Streamlit UI: the page config, secrets, form, columns, buttons, `st.rerun`, `st.stop` and all display strings. This includes the `Location` and `Added By` lookups made only for display.
- `datetime.now()`: the date is the parameter `today`.
- LeftoversApp.BuildPage: the meal cost is an integer (for example in cents). The float from `st.number_input` and the `${cost:.2f}` display are not modelled.
- PyValues.Repr: characters are escaped as CPython does for ASCII controls, U+007F to U+00A0 and U+00AD. Other non-printable non-ASCII characters are not escaped. This only matters for a `KeyError` message whose key is such a string.
- PyValues.Message: an exception from a foreign call is known only by the text it gives as `str(e)`.
- Floating-point JSON numbers: every number is an integer.
- Properties Notion adds to a page by itself are not modelled. These are the `Status` and `Days Left` formulas, and an empty `Photo` on a page created without a photo. So `LeftoversApp.CreatedPageDecodes` covers only pages created with a photo. Decoding the properties sent for a photo-less page raises `KeyError('Photo')` (`LeftoversApp.DecodePhoto`). Notion's own copy of such a page has an empty file list there.
