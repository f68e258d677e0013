# AI showcase site: verified model of its in-memory UI state

The site is a single-page React app with no server and no persistence. The
behaviour worth modelling is the in-memory state handling of four
components. Each is written here as immutable Dafny records with pure
transition functions:

- **Discussion forum** (`Forum`, `forum.dfy`). Create a post, prepended to the
  list. Reply to a post by id. Filter by category. Sort by newest, most liked
  or most replied, using the stable sort JavaScript engines implement.
- **Assistant drawer** (`Assistant`, `assistant.dfy`). This is the chat widget
  the app mounts. It appends the user's message and schedules a canned reply.
  The reply is the answer of the first predefined question whose lower-cased
  text contains the lower-cased query. When nothing matches, it is a fallback
  sentence that quotes the query.
- **Resume upload panel** (`ResumeUpload`, `resume_upload.dfy`). A MIME-type
  gate, then three phases: no file, analysing, result. The "analysis" is a
  fixed mock record and the file's contents are never read.
- **Demo chat widget** (`DemoChat`, `demo_chat.dfy`). An open/closed panel
  whose every message gets the same delayed demo reply. The app does not
  mount this widget.

`JsText` (`js_text.dfy`) holds the JavaScript string operations the
components rely on:
- `trim`, with ECMAScript's full whitespace set, used as a blank-input guard;
- ASCII `toLowerCase`;
- `includes`.

Timers become explicit steps. `Deliver` fires a reply timer and `Complete`
ends the two-second wait. Assistant timers all have the same delay, so they
fire in scheduling order, and the assistant keeps its scheduled replies as a
FIFO queue. `Date.now()` ids and `new Date()` timestamps are parameters.
Toasts are kept as an append-only log inside each state.

The code has no resume scorer and no PDF or plain-text extractor.
`analyzeResume` waits and returns a constant record. The upload check accepts
only `application/pdf` or a MIME type containing `document`. So plain text is
refused, and so is the legacy Word type `application/msword`, although the
file picker offers `.doc`. The model follows the code.

## Model

| member | source | states |
|---|---|---|
| JsText.TrimEmptyIffBlank | src/components/features/DiscussionForum.jsx:145 | `!s.trim()` holds exactly when every character of `s` is JavaScript whitespace, in both directions |
| Forum.CreatePost | src/components/features/DiscussionForum.jsx:144-167 | Blank text changes nothing. Otherwise the list grows by one: the old list is the tail and a new head post carries the given id and time, the text as typed, the selected category, 0 likes, no replies and tags `discussion` plus the lower-cased category. The draft is cleared, the modal is closed, a "Post created" toast is raised, and nothing else changes |
| Forum.ReplyTo | src/components/features/DiscussionForum.jsx:170-183 | Length and order are kept. Posts with another id are returned unchanged. Each post with the target id gains exactly one reply, appended at the end, and all its other fields are unchanged |
| Forum.HandleReply | src/components/features/DiscussionForum.jsx:169-184 | The reply is by "Current User", dated "Just now", with the given id and text, and only the post list changes |
| Forum.CardReply | src/components/features/DiscussionForum.jsx:43-48 | The card hands the text to `onReply` exactly when it is not blank, and then clears and closes its reply box. A blank reply leaves the card unchanged |
| Forum.SubmitCardReply | src/components/features/DiscussionForum.jsx:278-283 | A card's "Post Reply" reaches `handleReply` for the card's own post id exactly when the text is not blank. A blank text leaves forum and card unchanged |
| Forum.BlankReplyNeverReachesPosts | src/components/features/DiscussionForum.jsx:43-48 | A whitespace-only reply never changes the post list |
| Forum.Filter | src/components/features/DiscussionForum.jsx:186-187 | The "all" filter returns the list itself. Every post kept satisfies the filter |
| Forum.FilterCount | src/components/features/DiscussionForum.jsx:187 | A post the filter accepts is kept as often as it occurs in the list, and every other post is dropped |
| Forum.FilterAppend | src/components/features/DiscussionForum.jsx:187 | Filtering a concatenation gives the concatenation of the filtered parts, so the relative order is kept |
| Forum.Insert | src/components/features/DiscussionForum.jsx:188-199 | Inserting into a list in non-increasing rank order keeps it in order, and the result holds the old posts plus the new one |
| Forum.Sort | src/components/features/DiscussionForum.jsx:188-199 | The result is a permutation of the input in non-increasing rank: newest first, most liked first, or most replies first |
| Forum.SortedPairwise | src/components/features/DiscussionForum.jsx:188-199 | In a sorted list, every post ranks at least as high as every later post, not only the next one |
| Forum.InsertOfRank | src/components/features/DiscussionForum.jsx:188-199 | An inserted post lands before every post of equal rank |
| Forum.SortIsStable | src/components/features/DiscussionForum.jsx:188-199 | Posts of equal rank keep their input order (the sort is stable) |
| Forum.StableOrderIsUnique | src/components/features/DiscussionForum.jsx:188-199 | Two lists in rank order whose posts of every rank appear in the same order are equal, so a stable sort has exactly one possible result |
| Forum.SortIsTheStableSort | src/components/features/DiscussionForum.jsx:188-199 | Any list in rank order that keeps the input order within each rank equals `Sort`'s result. So the model agrees with every engine's stable `Array.prototype.sort` for this comparator |
| Forum.SortedIsFixed | src/components/features/DiscussionForum.jsx:188-199 | An input already in rank order comes back unchanged |
| Forum.UnknownSortKeepsOrder | src/components/features/DiscussionForum.jsx:196-197 | A sort key other than the three known ones uses a comparator that always returns 0, so it leaves the order unchanged |
| Forum.Visible | src/components/features/DiscussionForum.jsx:186-199 | The visible list holds exactly the posts the filter accepts, each as often as in the list. It is in non-increasing rank order, and ties keep the filtered order |
| Forum.AllUnsortedShowsEverything | src/components/features/DiscussionForum.jsx:186-199 | With the "all" filter and an unknown sort key, the visible list is the post list itself |
| Forum.MaxHeadLeads | src/components/features/DiscussionForum.jsx:188-199 | A post that ranks at least as high as every post in the list and comes first in it still comes first after sorting, since ties keep their order |
| Forum.NewestPostLeadsLatest | src/components/features/DiscussionForum.jsx:144-199 | Under the "latest" sort with no filter, a post created no earlier than every existing post shows first. The existing posts need not be in date order |
| Forum.SeedHiddenByCategoryFilters | src/components/features/DiscussionForum.jsx:116-142 | The seed post's category is not on the filter menu, so every menu category hides it, while "all" shows it |
| Forum.ReplyCommutesWithFilter | src/components/features/DiscussionForum.jsx:169-187 | Replying never changes a post's category, so replying then filtering equals filtering then replying |
| Assistant.FindFrom | src/components/features/ChatBot.jsx:143-145 | Searching from index i returns the first matching entry at or after i, or none when no entry from i on matches |
| Assistant.Find | src/components/features/ChatBot.jsx:143-145 | The lookup finds an entry exactly when some entry matches. What it returns is the first entry whose lower-cased question contains the lower-cased query |
| Assistant.ReplyFor | src/components/features/ChatBot.jsx:143-156 | The reply is the first matching entry's answer. With no match, it is the fallback prefix, then the query verbatim, then the fallback suffix |
| Assistant.Send | src/components/features/ChatBot.jsx:135-146 | Blank text changes no state. Otherwise exactly one user message with the original text is appended, the input is cleared, suggestions are hidden, the typing flag is set and one reply is scheduled |
| Assistant.Deliver | src/components/features/ChatBot.jsx:147-158 | The oldest scheduled reply is appended as exactly one bot message, and earlier messages are unchanged. The typing flag is cleared, and nothing else changes |
| Assistant.SelfMatch | src/components/features/ChatBot.jsx:143-145 | Each predefined question matches itself |
| Assistant.NoKInResumeQuestion | src/components/features/ChatBot.jsx:103 | No query with a `k` at position 34 can occur in the resume question, because that question has no k in either case |
| Assistant.SuggestionGetsItsAnswer | src/components/features/ChatBot.jsx:97-114 | Clicking suggestion i sends a non-blank question whose reply is answer i, because no earlier question contains question i |
| Assistant.Step | src/components/features/ChatBot.jsx:177-329 | The events the drawer can receive (lines 177, 195, 281, 318 and 329): opening, closing, typing, Enter or the send button, a suggestion button, a reply timer. Each adds at most one message and never edits or removes one. A suggestion index with no button and a timer with no scheduled reply change nothing. Opening, closing and typing leave the messages and scheduled replies alone |
| Assistant.InitialInv | src/components/features/ChatBot.jsx:118-123 | The initial state starts with the greeting, has nothing pending and is not typing |
| Assistant.StepPreservesInv | src/components/features/ChatBot.jsx:135-158 | Every event keeps three things true: the greeting stays first, sent messages equal bot replies (delivered or pending) minus the greeting, and typing shows only while a reply is pending. No event shortens or edits the history |
| Assistant.RunKeepsHistory | src/components/features/ChatBot.jsx:135-158 | After any sequence of events the earlier message list is a prefix of the new one, and the invariant holds |
| ResumeUpload.Accepts | src/components/features/ResumeAnalyzer.jsx:41 | Only a chosen file can pass. The PDF type always passes, and any other type that passes is at least as long as `document` |
| ResumeUpload.AcceptsAnyDocumentType | src/components/features/ResumeAnalyzer.jsx:41 | Every MIME type that contains `document` anywhere passes the check |
| ResumeUpload.RefusesTypeMissingALetter | src/components/features/ResumeAnalyzer.jsx:41 | A type other than `application/pdf` that lacks any one letter of `document` is refused. The test is case-sensitive |
| ResumeUpload.Upload | src/components/features/ResumeAnalyzer.jsx:39-56 | An accepted file is stored and the analysing flag is raised, and the analysis and toasts are unchanged. A missing or refused file leaves file, flag and analysis unchanged and only raises the "Invalid file type" toast |
| ResumeUpload.Complete | src/components/features/ResumeAnalyzer.jsx:55-83 | Analysing ends and the stored result is exactly the mock record, string for string: score 85, 3 strengths, 3 improvements, 4 keywords and 3 suggestions. The result is the same for every file, and the file and toasts are kept |
| ResumeUpload.Badge | src/components/features/ResumeAnalyzer.jsx:225 | The score badge is green exactly when the score is at least 80, otherwise yellow. The mock score gets the green badge |
| ResumeUpload.Reset | src/components/features/ResumeAnalyzer.jsx:305-309 | File and analysis become null, which brings the upload panel back |
| ResumeUpload.Step | src/components/features/ResumeAnalyzer.jsx:131-309 | A file can be chosen only while the upload panel with its file input is rendered. The timer acts only while analysing. Reset acts only while a result is shown (the panel at line 203, the button at line 305). Every other event changes nothing. Each event raises at most one toast and never withdraws one |
| ResumeUpload.WellFormedShowsOnePanel | src/components/features/ResumeAnalyzer.jsx:130-231 | In every reachable state exactly one of the upload, progress and result panels renders, and a shown score gets the green badge (score at least 80) |
| ResumeUpload.StepKeepsWellFormed | src/components/features/ResumeAnalyzer.jsx:39-83 | Every event keeps the three-phase shape. An accepted upload enters analysing, the timer leads to the result, and reset returns to the initial state |
| ResumeUpload.RunKeepsWellFormed | src/components/features/ResumeAnalyzer.jsx:39-83 | After any sequence of uploads, timer firings and resets the component is still in one of the three phases, and no toast is ever withdrawn |
| ResumeUpload.AcceptedTypes | src/components/features/ResumeAnalyzer.jsx:41 | The PDF MIME type and the Word 2007 MIME type pass the type check |
| ResumeUpload.RefusedTypes | src/components/features/ResumeAnalyzer.jsx:41 | `application/msword`, `text/plain` and a missing file are refused |
| DemoChat.Submit | src/components/shared/ChatBot.jsx:32-39 | Blank input changes no state. Otherwise exactly one `{text: input, sender: 'user'}` message is appended, the input is cleared and one reply is scheduled |
| DemoChat.Deliver | src/components/shared/ChatBot.jsx:43-49 | Exactly one bot message with the fixed demo text is appended, whatever the user wrote, and earlier messages are unchanged |
| DemoChat.Toggle | src/components/shared/ChatBot.jsx:148 | The launcher flips the open flag and changes nothing else |
| DemoChat.Close | src/components/shared/ChatBot.jsx:84 | The close button always leaves the panel closed and changes nothing else |
| DemoChat.Step | src/components/shared/ChatBot.jsx:84-148 | The events the widget can receive (lines 84, 116, 120 and 148): launcher, close button, typing, submitting, a reply timer. Each adds at most one message and never edits or removes one. The launcher flips the panel and the close button closes it. A timer with nothing scheduled changes nothing. Launcher, close and typing leave messages and scheduled replies alone |
| DemoChat.StepKeepsBalance | src/components/shared/ChatBot.jsx:32-50 | Every event keeps user messages equal to bot messages plus pending replies, and never shortens or edits the list |
| DemoChat.RunOnlyAppends | src/components/shared/ChatBot.jsx:38-48 | After any sequence of events the earlier message list is a prefix of the new one, and the balance holds |

## Left out

- Timers are not modelled as time. Each `setTimeout` callback is an explicit step that the environment may take once it has been scheduled.
- `Date.now()` ids and `new Date()` dates are parameters. A post's date is an abstract integer timestamp, not an ISO string that `new Date` parses. The seed post's date `'2 hours ago'` parses to NaN in JavaScript, which makes the "latest" comparator inconsistent. The model gives the seed post a timestamp parameter instead.
- `toLowerCase` folds ASCII letters only. Unicode case mapping is not modelled.
- Toasts keep only their title (and description for the upload error). Status, duration and closability are presentation.
- `post.replies || []`: every post in the model has a reply list, so a missing one is not modelled. The seed post has no `tags` field in the source; the model gives it an empty list.
- The per-card "liked" toggle, the modal's open button, and the filter, sort and category menus are plain `useState` setters, and no operation above depends on them except through the state fields they set. `liked` never changes `likes`.
- Rendering, scrolling into view, animation, colour modes and message timestamps shown in the assistant drawer are not modelled.
- The resume component never reads the file, so no text extraction or scoring exists to model. The `react-pdf` import is unused.
- The code runner (`src/components/features/CodeEditor.jsx`) evaluates user code with `new Function` and a Pyodide runtime. That is dynamic evaluation in a foreign runtime and is not part of this model. Neither are the static analytics charts, the page sections or the layout components.
- Numbers (likes, ids, timestamps) are unbounded integers. JavaScript's floating-point numbers are not modelled.
