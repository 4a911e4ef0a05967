# Chat front end: conversation store and response classification

This project models the logic of a small Streamlit chat front end (`main.py`).
The front end sends each question to an HTTP backend and stores the answer in the
transcript of the conversation in use. It also keeps an archive of other
conversations, which the user can select, delete or rename.

- `strings.dfy` (module `Strings`) covers the Python string behaviour the code
  relies on. This is `str.split` with a one-character separator and its inverse
  `join`, which cut the base64 payload out of a data URI. It also covers `str(n)`,
  which builds the default labels `"Chat N"`, and, as a proof helper, the value
  of a digit run.
- `responses.dfy` (module `Responses`) holds the message record `{role, type,
  content}` and the backend outcome. It defines the prefix classification of a
  result string: `"data:image"`, then `"{"` or `"["`, then plain text. It also
  defines the one bot message stored for each question, including the error paths.
- `sessions.dfy` (module `Sessions`) holds the class `Session`. Its fields are
  `current`, the conversation in use, and `archive`, the ordered list of the
  others. Its methods are the sidebar operations `add_new_chat`, `select_chat`,
  `delete_chat` and `rename_chat`, plus the submission of a question. Each
  method states its whole new state in terms of the old one. Every method keeps
  the invariant `Valid()`: in every conversation, each user turn is followed by
  exactly one bot turn.

The `"data:image"` test is a literal prefix check. It is not a parse of the
data URI scheme of RFC 2397, section 3.

Two behaviours of the source are kept as they are, not fixed:
- Deleting an archived conversation relabels every remaining one `"Chat k"` by
  position. This overwrites custom names.
- The default label of a new conversation is `"Chat " + (archive length + 1)`.
  After a delete, that label can equal an archived conversation's label.
  `NameClashAfterDelete` builds such a state from an empty session.

## Model

| member | source | states |
|---|---|---|
| `Strings.Split` | main.py:146 | `s.split(sep)` yields at least one piece, and no piece contains the separator |
| `Strings.JoinSplit` | main.py:146 | joining the pieces of a split with the separator gives back the original string |
| `Strings.SplitJoin` | main.py:146 | splitting a join of separator-free pieces gives back those pieces |
| `Strings.SplitCount` | main.py:146 | a split has exactly one piece more than the string has separators |
| `Strings.SecondPieceExists` | main.py:146 | `split(",")[1]` exists exactly when the string contains a comma |
| `Strings.Decimal` | main.py:19 | `str(n)` is a non-empty run of decimal digits with no leading zero, except for 0 |
| `Strings.ParseDecimalOfDecimal` | main.py:19 | reading `str(n)` back as a number gives `n` |
| `Strings.DecimalInjective` | main.py:19 | different numbers print as different strings |
| `Responses.Classify` | main.py:145-160 | kind is image exactly when the result starts with `"data:image"`; it is text exactly when no prefix matches; a `{`/`[` result is table only if the table parse succeeds and json only if it fails, never text; content is always the unmodified result |
| `Responses.ImagePayload` | main.py:146 | `split(",")[1]` is absent exactly when there is no comma, and the payload contains no comma |
| `Responses.ImagePayloadLocated` | main.py:146 | the text before the payload is a comma-free prefix of the result, so the payload starts right after the first comma and ends at the next comma or at the end of the string |
| `Responses.UserMessage` | main.py:134 | the question is recorded as a user text message with the prompt as content |
| `Responses.Reply` | main.py:138-163 | a backend `error` field is stored as bot text with that message; an exception stores the fixed error text; an answer is stored as classified, except that an image without a comma, or one that does not decode, stores the fixed error text |
| `Responses.AnswerStoredVerbatim` | main.py:144-160 | an answer's stored content is the unmodified result, unless it is a failed image, which stores the fixed error text |
| `Responses.ReplyKindConsistent` | main.py:116-123 | a stored image message has a payload after a comma for the redisplay split; a stored table or json message starts with `{` or `[` |
| `Responses.CommalessImageIsError` | main.py:145-163 | a `"data:image"` result without a comma is stored as the fixed error text, never as an image |
| `Responses.MissingResultIsEmptyText` | main.py:144-160 | a missing `notebook_output` or `result` is stored as an empty bot text message |
| `Responses.OraclesConsultedOnlyByPrefix` | main.py:158-160 | a result that is not image- or JSON-like is stored as text whatever the decoders would say |
| `Sessions.ChatName` | main.py:19 | a default label is `"Chat "` followed by the decimal number |
| `Sessions.ChatNameInjective` | main.py:30 | different positions give different default labels |
| `Sessions.RemoveAt` | main.py:28 | `pop(i)` keeps the entries before `i` and shifts those after it down by one |
| `Sessions.RemoveAtMultiset` | main.py:23-24 | the popped entry and the remaining list together are the original list |
| `Sessions.Renumbered` | main.py:29-30 | relabelling keeps the length and every entry's messages in order |
| `Sessions.RenumberedNames` | main.py:29-30 | after relabelling, entry `k` is named `"Chat k+1"` |
| `Sessions.RenumberedNamesDistinct` | main.py:29-30 | after relabelling, no two archived conversations share a name |
| `Sessions.Session.constructor` | main.py:10-14 | a new session has an empty archive and an empty conversation `"Chat 1"` in use |
| `Sessions.Session.AddNewChat` | main.py:16-19 | a non-empty current conversation is appended to the archive and an empty one is discarded; the new current conversation is empty and named `"Chat " + (new archive length + 1)` |
| `Sessions.Session.SelectChat` | main.py:22-24 | the new current conversation is old archive entry `i`; the archive is the old one without entry `i`, with the old current conversation (even an empty one) appended last; its length is unchanged and no conversation is lost |
| `Sessions.Session.DeleteChat` | main.py:27-30 | the archive loses entry `i`; the current conversation is untouched; the remaining entries keep their messages in order and entry `k` is renamed `"Chat k+1"` |
| `Sessions.Session.RenameChat` | main.py:32-33 | only the name of archive entry `i` changes, to the given string, without validation |
| `Sessions.Session.Submit` | main.py:131-163 | an empty input changes nothing; otherwise the user message and then exactly one bot message (`Reply`) are appended to the current conversation; the name and the archive are untouched |
| `Sessions.NameClashAfterDelete` | main.py:16-30 | new, delete and new can leave an archived conversation with the same label as the one in use |

## Left out

- The Streamlit page is not modelled. This covers the CSS, the sidebar layout, expanders, buttons, text inputs, chat bubbles, titles and `experimental_rerun` (main.py:20, 25, 35-108). These are display calls; the session state they touch is modelled by the `Session` methods. Streamlit's stopping of a script run that is still in progress (on a rerun, or when the user acts again during a backend call) is not modelled; see the `Sessions.Session.Submit` line below.
- The "(in use)" marker (main.py:85-92) is not modelled. It compares names, so it is affected by the name clash shown by `NameClashAfterDelete`.
- The redisplay loop (main.py:111-128) only renders stored messages through library calls. Only the property it relies on is stated: `ReplyKindConsistent`.
- `requests.post` and the `.json()` decode (main.py:139) are network I/O. Their result is the `Outcome` input: an `error` field, an answer whose result may be missing, or an exception. `BackendError` carries a string, as the backend contract promises; the source stores `response['error']` whatever its type.
- The shape checks of the decoded body are folded into `Outcome`, not modelled one by one. Examples: `'error' in` on a list, `response[0]` on an empty list, a non-string `result`. Each of these either selects a branch or raises.
- `base64.b64decode`, `Image.open` and `st.image` (main.py:147-148) are foreign libraries. Whether they all complete on the payload is the input flag `imageOpens`; a failure in any of them reaches the outer handler at main.py:161.
- `pd.read_json` and `st.table` (main.py:152-153) are foreign libraries. Whether they complete without `ValueError` is the input flag `parsesAsTable`. An exception of another type would reach the outer handler; this is not modelled.
- The exception detail shown by `st.error` (main.py:162) is display only. It is never stored.
- `Sessions.Session.SelectChat`, `DeleteChat` and `RenameChat` require `0 <= i < |archive|`. The sidebar only offers indices of the archive list. Python's negative indices and the `IndexError` of an out-of-range index are not modelled.
- `Sessions.Session.Submit`: a submission is modelled as running to completion. In the source a display call (`st.error`, `st.image`, `st.table`, `st.json`, `st.markdown`, main.py:141-162) runs between the user append at main.py:134 and the bot append. Anything raised there that is not an `Exception` (a `BaseException`, or Streamlit stopping the run because the user acted again) escapes the handler at main.py:161. The user turn is then left without an answer. `Valid()` excludes that unpaired state, so the model does not capture it.
- Conversations are values. Python dicts are shared by reference, but with in-range indices no dict is ever both in use and archived, so aliasing cannot be observed.
