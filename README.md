# StoryBooks story routes in Dafny

This project models the story and comment handling of the StoryBooks web
application (`routes/stories.js`). Signed-in users write short stories whose
status is `public` or something else (`private`, for one). Each story embeds
a list of comments. The routes list, show, create, edit and delete stories,
and add or delete comments.

The database is modelled as a table `map<Id, Story>`. A story has a title, a
body, a status string, an allowComments flag, an owner id and a sequence of
comments. A comment has an id, a body and a user id. Each handler becomes one
of two things:

- a pure decision function over the table and the request, in module
  `StoryDecisions` (`decisions.dfy`). These are the listings, the show and
  edit-form checks, form validation and the checkbox coercion. Each returns
  an `Outcome`: a rendered page, a redirect with an optional one-time notice,
  or `Failed(why)`.
- a method of the class `StoryStore.Store` (`store.dfy`). The store holds the
  table and an id counter that stands for the database's ObjectId generator.
  Create, update, delete, add-comment and delete-comment are methods. Each
  says exactly what the new table is, in terms of the specification functions
  in `StoryTable` (`table.dfy`).

`StoryTable` also defines the store invariant `WellFormed`. It says every id
issued so far is below the counter, and no two comment positions anywhere in
the table share a comment id. Every writing route keeps the invariant. Given
the invariant, deleting a comment removes exactly one comment from one story.

Where the source dereferences something that is not there, the handler
throws. The model writes this as `Failed(StoryNotFound)`,
`Failed(NotLoggedIn)`, `Failed(FieldMissing)` or `Failed(UndefinedStories)`,
and the table is left unchanged. This happens with a story id that does not
resolve, with no session user on `/my`, on a valid POST `/` or on a comment
post, with no `commentBody` field on a comment post, and on the
`/stories/user/:userId` route. Some of these throws happen in the handler
itself (`/my` at routes/stories.js:61, POST `/` at :123), which the web
framework answers with an error response; the others happen inside a promise
callback, and no response is sent. The model does not tell these apart.

The fields of the story forms are strings. A field the browser does not send
is the empty string there, because both are falsy in JavaScript, and the
story routes only test those fields for truthiness or store them. The comment
form is different: its handler reads `commentBody.length`, which throws when
the field is missing, so `AddComment` takes a `Field` that is either `Absent`
or `Sent(text)`.

## Model

| member | source | states |
|---|---|---|
| `StoryDecisions.Index` | routes/stories.js:9-17 | renders `stories/index` with exactly the stories whose status is `public`, each as stored |
| `StoryDecisions.My` | routes/stories.js:60-68 | for a session user, renders exactly the stories that user owns, whatever their status; without a session user the handler fails |
| `StoryDecisions.UserStories` | routes/stories.js:49-57 | corrected route: renders exactly the stories of the given user whose status is `public` |
| `StoryDecisions.UserStoriesAsWritten` | routes/stories.js:49-57 | as written the route never renders and never redirects: it hands the view an undeclared variable |
| `StoryDecisions.UserRouteNeverRenders` | routes/stories.js:52-54 | the corrected route always renders, and the route as written always differs from it |
| `StoryDecisions.Show` | routes/stories.js:20-46 | fails iff the id is not in the table; renders `stories/show` with that story iff it is `public` or the caller is logged in as its owner; every other case redirects to `/stories` with no notice |
| `StoryDecisions.EditForm` | routes/stories.js:76-91 | fails iff the id is not in the table; renders `stories/edit` with that story iff the caller owns it; otherwise flashes `error_msg` "Not Authorized!" and redirects to `/stories` |
| `StoryDecisions.Validate` | routes/stories.js:96-103 | "Please Tittle" is present iff the title is falsy and "Your Story is empty ;(" iff the body is falsy, the title message first, and nothing else; the list is empty iff both fields are filled |
| `StoryDecisions.AllowCommentsFlag` | routes/stories.js:105-109 | the flag is true iff the checkbox field is present and non-empty |
| `StoryTable.NewStory` | routes/stories.js:118-124 | the new story carries the form's title, body and status, the coerced flag, the caller as owner and no comments; title and body are non-empty |
| `StoryTable.Edited` | routes/stories.js:149-153 | title, body, status and the coerced flag come from the form; owner and comments are those of the old story |
| `StoryTable.WithoutComment` | routes/stories.js:204 | no comment left in one story's list carries the pulled id, and the list never grows |
| `StoryTable.WithoutCommentMembers` | routes/stories.js:204 | a comment is kept iff it was in the list and its id differs from the pulled id |
| `StoryTable.WithoutCommentAppend` | routes/stories.js:204 | the pull distributes over concatenation, so the kept comments stay in their original relative order |
| `StoryTable.WithoutCommentAbsent` | routes/stories.js:204 | a list holding no comment with the id is returned unchanged |
| `StoryTable.WithoutCommentAt` | routes/stories.js:204 | when the id sits at exactly one position, the result is the list with that one position cut out |
| `StoryTable.WithoutCommentDistinct` | routes/stories.js:204 | pulling keeps the comment ids of a list distinct |
| `StoryTable.Pull` | routes/stories.js:204 | the multi-document pull keeps the same story ids and changes no field but the comments; no story still holds a comment with the id, and no list grows |
| `StoryTable.PullMembers` | routes/stories.js:204 | each story keeps exactly its comments whose id differs from the pulled id |
| `StoryTable.PullAbsent` | routes/stories.js:204 | an id that no story holds leaves the table as it is |
| `StoryTable.PullAt` | routes/stories.js:204 | when a comment id sits at exactly one position of the table, the pull cuts out that position and leaves every other story unchanged |
| `StoryTable.PullRemovesOne` | routes/stories.js:203-208 | in a well-formed table the pull removes exactly the one matching comment, from the one story that holds it, and leaves every other story unchanged |
| `StoryTable.CreateKeeps` | routes/stories.js:127-128 | inserting a comment-less story under the next id keeps the invariant, and that id is not yet in the table |
| `StoryTable.ReplaceKeeps` | routes/stories.js:150-155 | overwriting a story without touching its comments keeps the invariant |
| `StoryTable.RemoveKeeps` | routes/stories.js:165-167 | removing a story keeps the invariant |
| `StoryTable.PrependKeeps` | routes/stories.js:191-193 | prepending a comment that carries the next id keeps comment ids unique across the table |
| `StoryTable.PullKeeps` | routes/stories.js:204 | the pull keeps the invariant |
| `StoryTable.MyAfterCreate` | routes/stories.js:118-131 | after a valid create, the creator's `/my` listing is the old listing plus exactly the new story |
| `StoryStore.Store.FreshId` | routes/stories.js:127-128 | hands out the next counter value, which no story uses as its id, advances the counter and keeps the invariant |
| `StoryStore.Store.Create` | routes/stories.js:94-134 | an invalid form re-renders `stories/add` with the messages and the entered title and body, table unchanged; a valid form from a logged-in caller adds exactly one story under an id not in the old table, changes no other story, and redirects to that story with "Idea Added!" |
| `StoryStore.Store.Update` | routes/stories.js:137-161 | for any caller, with no ownership check, the story at the id becomes `Edited(old story, form)` and every other story stays; redirects to `/dashboard` with "Idea updated!"; an unknown id fails and changes nothing |
| `StoryStore.Store.Delete` | routes/stories.js:164-172 | for any caller, the new table is the old one without that id (the same table when the id is unknown); redirects to `/dashboard` with "Idea Removed!" |
| `StoryStore.Store.AddComment` | routes/stories.js:177-201 | without a session user, or without a `commentBody` field, the handler fails and nothing changes; an unknown story id fails likewise; an empty body changes nothing and redirects to the story with "Comments Empty!"; otherwise the new comment, by the caller, is element 0, the old comments follow in order, no other story or field changes, and it redirects with "Comments Added!" |
| `StoryStore.Store.DeleteComment` | routes/stories.js:203-210 | the new table is `Pull(old table, id)`, the invariant is kept, and the browser goes back to the referring page with "Comments Removed!" |
| `StoryStore.CreateCommentShow` | routes/stories.js:94-201 | from an empty store, a public story "T" created by a user appears in the public listing; after the comment "hi" the story page renders for a guest with exactly that one comment, by that user |

## Findings

| source | as written | input that shows it | evidently intended | confidence | as-written member | corrected member |
|---|---|---|---|---|---|---|
| routes/stories.js:52-54 | the query result is bound to `story`, but the view is given `stories`, which is not declared there, so the callback throws and no page is sent | any GET `/stories/user/<id>` | render the user's public stories in `stories/index`, as the route's comment (:48) and its query (:50) say | not executed; high | `StoryDecisions.UserStoriesAsWritten` | `StoryDecisions.UserStories` |

The route as written always produces `Failed(UndefinedStories)`.
`UserRouteNeverRenders` proves that it differs from the corrected route on
every input.

## Notes on behaviour

- PUT `/stories/:id` and DELETE `/stories/:id` check no ownership, unlike the
  edit form. The model keeps this: `Update` and `Delete` take no caller at
  all.
- Adding a comment does not look at `allowComments`. The model follows the
  code.
- Comment deletion is not scoped to one story: it pulls the id from every
  story. `Pull` models exactly that. It removes a single comment only because
  comment ids are unique across the table, which is the `WellFormed` invariant.
- The comment above `/stories/user/:userId` ("list storries from the user",
  routes/stories.js:48) and its query for that user's `public` stories (:50)
  show that it should list a user's public stories. The code cannot do that
  (see Findings).

## Left out

- Template rendering, flash storage and redirects are opaque outcome values. The `referer` header is the target `Referer`.
- Mongoose `populate` and the `sort` on a single-document query are left out. A populated owner that no longer exists (a `null` `story.user` in the show route) is not modelled.
- Listing order is not modelled: a listing is the filtered table as a map, because the source asks for no order.
- Crash paths (unknown story id, missing session user, missing `commentBody`, the undeclared variable) are `Failed` outcomes with the table unchanged. The model does not say whether the client gets an error response or none.
- A missing `title` or `body` on an invalid POST `/` is echoed back to the form as undefined; the model echoes the empty string.
- The `ensureAuthenticated` guard: `helpers/auth.js` is not part of this model. `EditForm` takes the logged-in user's id. `DeleteComment` uses no caller, because the handler reads none.
- GET `/stories/add` renders a form with no data and is left out.
- The story schema (`models/Story.js`) is not part of this model. Schema defaults, required-field validation on save, and creation dates are left out. Assigning an absent form field in the update route stores the empty string rather than unsetting the field.
- ObjectId generation is a counter in the store. The model relies only on each id being new.
- Database failures (rejected promises) and concurrent last-writer-wins edits are left out.
- `routes/auth.js` (OAuth login and logout through Passport) and `app.js` (the HTTP listener) are left out.
