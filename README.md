# A verified model of the ai-note-talking-app core

The application is a Next.js notes service. Signed-in users create notes with a title, content and tags. They list their notes newest first and search them by a case-insensitive substring. A browser editor manages the tag list, and a card shows a shortened preview of each note. The model covers:

- the two Mongoose schemas, `Note` and `User`: setters, validators, the unique email index, and the password projection;
- the email regular expression of the `User` schema, written as a backtracking recogniser and proved equal to a character-level description;
- the `/api/notes` route: the zod body schema with zod's first-issue messages, and `GET`/`POST` over an in-memory note collection kept by a class;
- the `/api/notes/search` route: a pure function of the collection, the caller and the query;
- the note editor component: a class holding `tags` and `tagInput`, its two handlers, the client form schema, and the rule that enables the AI buttons;
- the note card's `truncateContent`;
- the post-processing `generateTags` applies to the model's reply.

Modules, one per file:

- `Wrappers`: `Option` and `Result`.
- `Json`: decoded request bodies.
- `Text`: JavaScript `trim`, `toLowerCase` and substring search.
- `NoteModel`, `UserModel` and `EmailPattern`: the schemas.
- `NoteOrder`: the `createdAt`-descending order, filtering, and the fact that the two commute.
- `NotesRoute` and `SearchRoute`: the two routes.
- `NoteEditor`, `NoteCard` and `AiTags`: the components and the tag-reply parser.

Interface decisions:

- The signed-in session is a parameter `caller: Option<UserId>`, where `None` means no session user.
- Whether the database connection and the query succeed is a parameter `dbUp: bool`.
- The clock is a parameter `now: nat`, used for `createdAt` and `updatedAt`.
- A request body that is not JSON at all is `None`.

Behaviour the proofs make explicit:

- **Whitespace-only title.** The route's zod schema counts untrimmed characters, so a title of only spaces passes it. The `Note` model's trim setter then empties the title and `required` rejects it. The handler treats that Mongoose error as unexpected and answers 500 "Failed to create note", not 400 (`NotesRoute.BlankTitleIsServerError`). The client form has the same gap (`NoteEditor.FormMatchesServerSchema`).
- **Empty query.** Only an absent or empty `q` is refused. A query of spaces is searched (`SearchRoute.BlankQueryAccepted`).
- **Email endings.** The final group allows two or three word characters. `jo.ann@mail.com` is accepted; `jane@example.info` is refused (`EmailPattern.RejectsFourLetterEnding`).
- **Tie order.** The database does not define the order of notes with equal `createdAt`. The model chooses to break such ties in storage order (a stable sort), and `NotesRoute.NoteStore.Get` and `SearchRoute.SearchNarrowsList` state results under that choice; the order-independent part is "ordered newest first and a permutation of the caller's notes". The search result is proved to be the list result filtered by the query.

## Model

| member | source | states |
|---|---|---|
| Text.Trim | models/Note.ts:18 | the result has no leading or trailing JavaScript whitespace and is no longer than the input |
| Text.TrimIsSlice | models/Note.ts:18 | trimming removes a whitespace-only prefix and a whitespace-only suffix and keeps the slice in between |
| Text.TrimFixedIff | models/Note.ts:18 | trimming changes nothing exactly when neither end is whitespace |
| Text.TrimIdempotent | models/Note.ts:18 | trimming twice is trimming once |
| Text.TrimEmptyIff | models/Note.ts:16-18 | the trimmed string is empty exactly when the input is all whitespace |
| Text.Lower | models/User.ts:22 | each character is lowercased; the length is kept |
| Text.LowerFixedIff | models/User.ts:22 | the result has no upper-case letter; lowercasing changes nothing exactly on strings without one |
| Text.TrimKeepsLower | models/User.ts:22-23 | trimming a lower-case string keeps it lower-case |
| Text.LowerTrimCommute | models/User.ts:22-23 | lowercasing and trimming commute, so the order of the two setters does not matter |
| NoteModel.NormaliseTitle | models/Note.ts:14-19 | the stored title is trimmed, and it is empty exactly when the given title was all whitespace |
| NoteModel.TitleErrors | models/Note.ts:16-17 | at most one title error, and none exactly when the trimmed title has 1 to 200 characters |
| NoteModel.ValidationErrors | models/Note.ts:12-33 | no error exactly when the trimmed title has 1 to 200 characters, the content is non-empty and an owner is given |
| NoteModel.Create | models/Note.ts:12-37 | succeeds exactly when the validators pass, with a non-empty error list otherwise; the note holds the trimmed title, the content, the tags or `[]`, the owner, and both timestamps equal to `now` |
| NoteModel.CreatedIsValid | models/Note.ts:14-23 | every created note satisfies the stored-note invariant |
| NoteModel.BlankTitleRejected | models/Note.ts:16-18 | a whitespace-only title fails, and the first error is "Please provide a title" |
| NoteModel.ContentRequiredTagsDefault | models/Note.ts:20-27 | empty content fails; a note created without tags has `[]` |
| UserModel.NormaliseEmail | models/User.ts:22-23 | the stored email is lower-case and trimmed, and equals lowercasing the trimmed input |
| UserModel.NormaliseEmailIdempotent | models/User.ts:22-23 | normalising a normalised email changes nothing |
| UserModel.ValidationErrors | models/User.ts:13-32 | no error exactly when the name has 1 to 60 characters, the normalised email matches the pattern and the password has at least 6 characters |
| UserModel.NameErrors | models/User.ts:13-17 | no error exactly when the name is present with 1 to 60 characters; a missing name gets "Please provide a name", a longer one "Name cannot be more than 60 characters" |
| UserModel.EmailErrors | models/User.ts:18-28 | no error exactly when the email is present and its normalised form matches the pattern; a missing or blank email gets "Please provide an email", one that does not match "Please provide a valid email" |
| UserModel.PasswordErrors | models/User.ts:29-34 | no error exactly when the password is present with at least 6 characters; a missing one gets "Please provide a password", a shorter one "Password should be at least 6 characters long" |
| UserModel.Store | models/User.ts:21 | appending a user whose email is free keeps emails unique |
| UserModel.Create | models/User.ts:11-39 | invalid fields give the validation error; a taken normalised email gives the duplicate-key error; otherwise exactly the new user is appended, and unique emails stay unique |
| UserModel.StoredEmailNormalised | models/User.ts:20-27 | a stored email is already normalised and matches the pattern |
| UserModel.Read | models/User.ts:33 | a query returns the password exactly when it selects it |
| EmailPattern.UnitsMatchShape | models/User.ts:25 | `([\.-]?\w+)*` matches exactly the strings of word characters and separators where each separator is followed by a word character |
| EmailPattern.SegmentMatchesShape | models/User.ts:25 | `\w+([\.-]?\w+)*` matches exactly those strings that also start with a word character |
| EmailPattern.TldGroupsShape | models/User.ts:25 | a match of `(\.\w{2,3})+` starts with a dot and ends with a dot followed by two or three word characters |
| EmailPattern.DomainMatchesShape | models/User.ts:25 | the domain part matches exactly when it is a segment ending in a dot and two or three word characters |
| EmailPattern.EmailMatchesShape | models/User.ts:25 | the whole expression accepts exactly the segment-`@`-domain strings |
| EmailPattern.AcceptedHasOneAt | models/User.ts:25 | apart from the `@`, an accepted address holds only word characters, dots and hyphens |
| EmailPattern.AcceptsDottedAddress | models/User.ts:25 | `jo.ann@mail.com` is accepted |
| EmailPattern.RejectsFourLetterEnding | models/User.ts:25 | `jane@example.info` is refused |
| NoteOrder.Insert | app/api/notes/route.ts:26 | inserting into a newest-first sequence keeps it newest first and adds exactly one note |
| NoteOrder.NewestFirst | app/api/notes/route.ts:26 | the result is newest first and a permutation of the input |
| NoteOrder.Filter | app/api/notes/route.ts:25 | keeps exactly the accepted notes, and keeps a newest-first order |
| NoteOrder.FilterNewestFirst | app/api/notes/search/route.ts:28-37 | filtering the sorted notes equals sorting the filtered notes |
| NotesRoute.ParseBody | app/api/notes/route.ts:8-12 | accepts exactly an object with a 1–200 character title string, a non-empty content string and, if present, a list of strings; a body that is not JSON is a malformed-body error; on success the three values are copied and other keys are dropped |
| NotesRoute.TitleIssueMessages | app/api/notes/route.ts:9 | a missing title gives "Required", an empty one "Title is required", and one over 200 characters zod's maximum-length message |
| NotesRoute.ContentIssueMessage | app/api/notes/route.ts:10 | with a good title, empty content gives "Content is required" |
| NotesRoute.TitleIssue | app/api/notes/route.ts:9 | no issue exactly for a string of 1 to 200 characters; a longer string gets zod's maximum-length message |
| NotesRoute.ContentIssue | app/api/notes/route.ts:10 | no issue exactly for a non-empty string; the empty string gets "Content is required" |
| NotesRoute.TagsIssue | app/api/notes/route.ts:11 | no issue exactly when the tags are absent or an array of strings |
| NotesRoute.TagIssueMessage | app/api/notes/route.ts:11 | with good title and content, a tag list whose first non-string element is a number gives "Expected string, received number" |
| NotesRoute.UnknownKeysIgnored | app/api/notes/route.ts:8-12 | adding a key the schema does not name does not change the parse |
| NotesRoute.Owned | app/api/notes/route.ts:25 | exactly the notes owned by the caller |
| NotesRoute.ListNotes | app/api/notes/route.ts:25-27 | the caller's notes, newest first, as a permutation of the owned notes |
| NotesRoute.ListAfterCreate | app/api/notes/route.ts:52-55 | storing a note adds it to its owner's list and to no other, so the owner's next GET returns it |
| NotesRoute.StoreAppend | app/api/notes/route.ts:52-55 | appending a valid note under the next identifier keeps the collection invariant |
| NotesRoute.CreateFromInput | app/api/notes/route.ts:52-55 | `Note.create` on an accepted body stores exactly the inputs with a non-blank title of at most 200 characters after trimming, as a valid note built from them |
| NotesRoute.NoteStore.Get | app/api/notes/route.ts:15-36 | 401 without a caller, 500 "Failed to fetch notes" when the database fails, otherwise 200 with the caller's notes newest first |
| NotesRoute.NoteStore.Post | app/api/notes/route.ts:39-71 | 401 without a caller; 500 for a non-JSON body; 400 with zod's first message; 500 when the database fails or the model rejects the note; otherwise 201, exactly the new note appended with the next identifier, and the collection invariant kept. Nothing changes unless the status is 201 |
| NotesRoute.NoteStore.CreateNote | app/api/notes/route.ts:52-57 | a note the model rejects gives 500 and changes nothing; otherwise it is appended and returned with 201 |
| NotesRoute.NoteStore.Append | app/api/notes/route.ts:52-55 | storing a valid note under the next identifier appends exactly it and keeps the collection invariant |
| NotesRoute.BlankTitleIsServerError | app/api/notes/route.ts:58-70 | a whitespace-only title passes the body schema but fails in the model |
| SearchRoute.MatchesQuery | app/api/notes/search/route.ts:30-34 | a note matches only when the query fits in its title, its content or one of its tags |
| SearchRoute.MatchIgnoresQueryCase | app/api/notes/search/route.ts:31-33 | a note matches a query exactly when it matches the lowercased query |
| SearchRoute.EmptyQueryMatchesAll | app/api/notes/search/route.ts:19-34 | an empty query would match every note, which the 400 guard prevents |
| SearchRoute.Search | app/api/notes/search/route.ts:8-46 | 401 without a caller; 400 without a non-empty query; 500 when the database fails; otherwise 200 with the caller's notes whose title, content or a tag contains the query ignoring case, newest first |
| SearchRoute.SearchNarrowsList | app/api/notes/search/route.ts:28-37 | the search result is the caller's list with the non-matching notes removed, in the same order |
| SearchRoute.BlankQueryAccepted | app/api/notes/search/route.ts:19 | a query of spaces is searched, not refused |
| SearchRoute.HelloMatches | app/api/notes/search/route.ts:31-33 | "hello" matches "Hello World", "say hello" and "HELLO" |
| NoteEditor.AddTag | components/note-editor.tsx:61-69 | Enter with a non-blank input adds the trimmed input at the end if absent and clears the input; any other key or a blank input changes nothing |
| NoteEditor.AddTagKeepsDistinct | components/note-editor.tsx:64-65 | adding never creates a duplicate tag |
| NoteEditor.RemoveTag | components/note-editor.tsx:71-73 | removes every equal tag and keeps the others, with their counts, in order |
| NoteEditor.RemoveAbsentTag | components/note-editor.tsx:72 | removing an absent tag changes nothing; removing twice is removing once |
| NoteEditor.RemoveUndoesAdd | components/note-editor.tsx:61-73 | removing the tag just added restores the previous list |
| NoteEditor.RemoveKeepsDistinct | components/note-editor.tsx:72 | removing never creates a duplicate tag |
| NoteEditor.FormErrors | components/note-editor.tsx:14-17 | no title error exactly for 1 to 200 characters, no content error exactly for non-empty content; the messages are the server schema's: "Title is required", zod's maximum-length message and "Content is required" |
| NoteEditor.FormMatchesServerSchema | components/note-editor.tsx:14-17 | the form accepts a title and content exactly when the server's body schema accepts the submitted body |
| NoteEditor.AiActionsEnabled | components/note-editor.tsx:103 | the AI buttons are enabled exactly for content of at least 10 characters |
| NoteEditor.Editor.constructor | components/note-editor.tsx:42-43 | tags start as the given tags or `[]`; the input starts empty |
| NoteEditor.Editor.SetTagInput | components/note-editor.tsx:149 | the input takes the typed value; the tags are unchanged |
| NoteEditor.Editor.HandleAddTag | components/note-editor.tsx:61-69 | the new tags and input are those of `AddTag`, and a duplicate-free list stays duplicate-free |
| NoteEditor.Editor.HandleRemoveTag | components/note-editor.tsx:71-73 | the new tags are those of `RemoveTag`; the input is unchanged; a duplicate-free list stays duplicate-free |
| NoteEditor.Editor.HandleFormSubmit | components/note-editor.tsx:75-77 | the submission is made exactly for a valid form, with the title, the content and the current tags |
| NoteCard.Truncate | components/note-card.tsx:36-39 | content that fits is unchanged; longer content becomes its first `maxLength` characters and "..."; the result is at most `maxLength` + 3 long and starts with the first min(length, `maxLength`) characters |
| NoteCard.TruncateIdempotent | components/note-card.tsx:36-39 | truncating a preview again changes nothing |
| NoteCard.TruncatedShape | components/note-card.tsx:38 | content over the limit always comes out at the full limit followed by "..." |
| NoteCard.Preview | components/note-card.tsx:49 | with the default 150, the preview is at most 153 characters |
| AiTags.Split | lib/ai.ts:57 | at least one piece, no piece holds a comma, and a comma-free string is one piece |
| AiTags.SplitJoin | lib/ai.ts:57 | splitting joined comma-free pieces gives the pieces back |
| AiTags.JoinSplit | lib/ai.ts:57 | joining the pieces of a split gives the string back |
| AiTags.TrimAll | lib/ai.ts:58 | each piece is replaced, in its place, by its trimmed form |
| AiTags.NonEmpty | lib/ai.ts:59 | keeps exactly the non-empty pieces; with NonEmptyAppend this fixes the result piece by piece |
| AiTags.NonEmptyAppend | lib/ai.ts:59 | dropping empty pieces from a concatenation is dropping them from each part, so order and duplicates are kept |
| AiTags.Take | lib/ai.ts:60 | the first `n` pieces (five in `ParseTags`), or all of them when there are fewer |
| AiTags.ParseTags | lib/ai.ts:56-60 | at most 5 tags; each is non-empty, trimmed and comma-free |
| AiTags.NoCommaReply | lib/ai.ts:57-59 | a reply without a comma gives its trimmed text as the only tag, or no tag when it is blank |
| AiTags.ParseJoined | lib/ai.ts:56-60 | a comma-separated reply gives its trimmed non-blank pieces in order, at most the first five, duplicates kept |
| AiTags.CleanTagsRoundTrip | lib/ai.ts:56-60 | tags that are already clean come back unchanged, cut to five |

## Left out

- The Gemini HTTP call, its response extraction and API-key check, and the prompt templates (lib/ai.ts:1-54): network I/O against an external service. Only what `generateTags` does to the reply string is modelled.
- The AI route handlers and the model-list proxy (app/api/ai/): a session check, a length check and a pass-through to the external call. The editor's 10-character rule is modelled.
- next-auth session resolution and `dbConnect`: they are the `caller` and `dbUp` parameters. A session user without an `id` is not modelled.
- app/api/notes/[id]/route.ts and the dashboard and page components: fetches, alerts and React effects are not part of this model.
- `formatDate` in the note card: it depends on the locale through `toLocaleDateString`.
- Concurrency: the await chains and interleaved requests. Each handler runs as one atomic step.
- String lengths are counted in characters, not UTF-16 code units.
- `toLowerCase` is modelled on ASCII letters only; other scripts are left unchanged.
- SearchRoute.Search: `q` is passed to MongoDB as a regular expression. The model matches it as a literal, case-insensitive substring, so queries with regular-expression metacharacters are not modelled faithfully.
- The MongoDB text index on title and content: no modelled code uses it.
- NotesRoute.NoteStore.Get: the database leaves the order of notes with equal `createdAt` unspecified. The model breaks such ties in storage order as its own choice, and the clause `resp.body.notes == ListNotes(...)` (and `SearchRoute.SearchNarrowsList`, which builds on it) relies on that choice; only newest-first order and the exact multiset of the caller's notes hold for every database order.
- NotesRoute.NoteStore.Post: the rejected Mongoose document and its ValidationError are not returned, because the handler maps them to a generic 500. Model errors are a list of path/message pairs.
- Note identifiers are sequential natural numbers, not ObjectIds. Timestamps are natural numbers from the clock parameter.
- JSON numbers are integers. The only JSON-number message modelled is zod's type message for a non-string tag.
- NoteEditor.Editor: the title and content live in react-hook-form, not in component state. The form's validation is the pure `FormErrors`, and rendering is not modelled.
