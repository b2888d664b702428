# devconnector posts and profiles, modelled in Dafny

This project models the three pieces of the devconnector backend that follow
clear rules:

- **The post-text validator** (`validatePostInput`). It normalises `text`:
  an absent or blank value becomes `""`. It then sorts the input into exactly
  one of three outcomes. Empty text gives the "required" error. Text shorter
  than 10 or longer than 300 characters gives the "length" error. Anything
  else is valid. `isValid` holds exactly when the error map is empty.
- **The post routes.** These cover create (behind the validator), author-only
  delete, the like toggle, add comment and delete comment. The handlers change
  a post's `likes` and `comments` arrays in place with `splice` and `unshift`
  and then save the whole document. Here the posts collection is a
  `map<PostId, Post>` field of a `PostStore` object. Each route is a method
  that reassigns that field. Its `ensures` gives the new map and the reply in
  terms of the old map. The list rewrites are functions (`ToggledLikes`,
  `RemainingComments`), and lemmas prove the promised properties about them.
- **Profile create-or-update and read.** `profileFields` is built by
  conditional assignment (`BuildProfileFields`), which is specified by the
  function `ProfileFields`. The profiles collection is a `map<UserId, Profile>`
  field of a `ProfileStore` object. `CreateOrUpdate` makes the
  update / 409 / create decision. `Get` answers 404 for a missing profile.

The JavaScript built-ins the handlers depend on are written out in module
`Js`:

- truthiness of a string-or-absent field;
- `indexOf`;
- `splice`, including a negative start, which counts from the end;
- `split` on a one-character separator, with `join` as its inverse.

The authenticated caller is a plain user id parameter. Identifiers that the
document store generates (a new post's id, a new comment's id) are also
parameters, and the method requires them to be fresh. The profile validator's
verdict is a parameter too: its error map.

When `findById` yields no post, each handler throws on its first use of
`post`: the delete route on `post.user` (routes/api/posts.js:83), the like
route on `post.likes` (routes/api/posts.js:108), and the comment routes on
`post.comments` (routes/api/posts.js:146, 168). The model keeps the resulting
answers:

- the like route's `catch` answers 500 (`ServerError`);
- the delete, comment and delete-comment routes have no `catch` that sees the
  error, so no answer is sent (`NoReply`).

Two behaviours of the code are worth spelling out:

- Deleting an unknown comment id is not a no-op. `indexOf` gives -1, and
  `splice(-1, 1)` then removes the **last** comment
  (routes/api/posts.js:168-175). `RemainingComments` and
  `DeleteAbsentCommentDropsLast` state this.
- Handles are not kept unique. The update path never checks the handle
  (routes/api/profile.js:79-88), so an update can give two profiles the same
  handle, as `UpdateCanDuplicateHandle` proves. Only the create path keeps
  handles unique (`CreateKeepsHandlesUnique`).

## Model

| member | source | states |
|---|---|---|
| `Js.Truthy` | routes/api/profile.js:68-77 | an absent field and the empty string are falsy; every non-empty string is truthy |
| `Js.IndexOf` | routes/api/posts.js:168-170 | the result is -1 exactly when the value is absent; otherwise it is the first index holding the value |
| `Js.Splice` | routes/api/posts.js:112 | `splice(start, deleteCount)`, called here and at routes/api/posts.js:175, keeps the elements before the start position, drops `deleteCount` of them clamped to what is left, and keeps the rest; a negative start counts back from the end |
| `Js.SpliceOneAt` | routes/api/posts.js:112 | `splice(i, 1)` at an index inside the array removes exactly element i |
| `Js.SpliceMinusOne` | routes/api/posts.js:175 | `splice(-1, 1)` on a non-empty array removes its last element |
| `Js.SpliceEmpty` | routes/api/posts.js:175 | `splice` on an empty array leaves it empty, whatever the arguments |
| `Js.Split` | routes/api/profile.js:65 | `split(",")` gives one piece more than there are commas, and no piece contains a comma |
| `Js.JoinSplit` | routes/api/profile.js:65 | joining the pieces of a split with the separator gives back the original string |
| `Js.SplitJoin` | routes/api/profile.js:65 | splitting a join of separator-free pieces gives back the pieces, so the skills list and the skills string determine each other |
| `PostValidation.IsEmptyValue` | validation/post.js:7 | an absent field and the empty string are empty; a string with a character that trimming keeps is not empty; a value that is not empty is truthy |
| `PostValidation.ValidatePostInput` | validation/post.js:4-21 | blank or absent text is normalised to "" and gets the required error; other text is kept as given and gets the length error unless 10 <= length <= 300; `text` is the only possible key; `isValid` holds exactly when the error map is empty, that is exactly for non-blank text of 10 to 300 characters |
| `PostValidation.OutcomesAreExclusive` | validation/post.js:9-15 | the error map is empty, the required error alone, or the length error alone, and the two errors never occur together |
| `PostValidation.ValidTextIsUntouched` | validation/post.js:7 | valid input is present and not rewritten by the normalisation, so the handlers store the text as it came in |
| `Posts.LikeIndex` | routes/api/posts.js:108-110 | `findIndex` gives -1 exactly when the caller has no like; otherwise it gives the first index of the caller's like |
| `Posts.ToggledLikes` | routes/api/posts.js:108-115 | without a like by the caller, the result is a new like for the caller followed by the old array; with one, the result is the old array with the first such entry cut out |
| `Posts.ToggleRemovesOwnLike` | routes/api/posts.js:108-112 | with unique users, a present like is removed, the length drops by one, the caller no longer likes the post, and the other likes keep their order |
| `Posts.ToggleAddsLikeAtFront` | routes/api/posts.js:113-114 | an absent like is put at index 0 and every earlier like moves up by one |
| `Posts.ToggleTwiceRestores` | routes/api/posts.js:108-115 | starting from likes without the caller, two toggles give back the original array |
| `Posts.ToggleTwiceMovesLikeToFront` | routes/api/posts.js:108-115 | with unique users, starting from likes that hold the caller, two toggles move the caller's like to the front, so the round trip holds only from the unliked state or when the caller's like is already first |
| `Posts.ToggleTwiceRestoresIff` | routes/api/posts.js:108-115 | with unique users, two toggles give the likes back exactly when the caller has no like or the caller's like is the first entry |
| `Posts.TogglePreservesUniqueUsers` | routes/api/posts.js:108-115 | the toggle keeps each user at most once in the likes array |
| `Posts.ToggleFlipsOnlyCaller` | routes/api/posts.js:108-115 | with unique users, the toggle flips whether the caller likes the post and leaves every other user's like as it was |
| `Posts.CommentIds` | routes/api/posts.js:168-169 | `map(item => item.id)` gives one id per comment, in order |
| `Posts.RemainingComments` | routes/api/posts.js:168-175 | the first comment with the id is removed and the rest keep their order; an unknown id removes the last comment; an empty array stays empty |
| `Posts.DeletePresentComment` | routes/api/posts.js:168-175 | with unique ids, deleting a present id removes exactly that comment, and the id is gone afterwards |
| `Posts.DeleteAbsentCommentDropsLast` | routes/api/posts.js:168-175 | deleting an unknown id from a non-empty array removes its last comment instead of doing nothing |
| `Posts.DeletePreservesUniqueIds` | routes/api/posts.js:168-175 | after any deletion the remaining comments still have distinct ids |
| `Posts.PostStore.Create` | routes/api/posts.js:48-70 | invalid text answers 422 with the validator's errors and stores nothing; valid text stores a post with `user` the caller, `text`, `name` and `avatar` from the request and empty likes and comments, and returns that post |
| `Posts.PostStore.Delete` | routes/api/posts.js:77-95 | a caller other than the stored author gets 401 and the store is unchanged; the author's post is removed and the reply is `{success: true}`; a missing post gets no reply |
| `Posts.PostStore.ToggleLike` | routes/api/posts.js:102-120 | the post's likes become the toggled likes and the saved post is returned, and all other posts are unchanged; a missing post answers 500; unique likes are kept |
| `Posts.PostStore.AddComment` | routes/api/posts.js:127-155 | invalid text answers 422 and changes nothing; otherwise a comment by the caller with the request's text and avatar is put at index 0, the previous comments follow unchanged, and ids stay distinct |
| `Posts.PostStore.DeleteComment` | routes/api/posts.js:162-183 | the post's comments become the result of splicing at the `indexOf` position (the unknown-id case removes the last comment); there is no ownership check |
| `Profiles.KeepTruthy` | routes/api/profile.js:68-77 | an optional field is set exactly when the body value is truthy, and then it holds that value |
| `Profiles.ProfileFields` | routes/api/profile.js:61-77 | `profileFields` has the caller as user, the body's handle and status, and skills split on ","; company, website and location are present exactly when truthy; `social` is always present and holds exactly the truthy links among the five |
| `Profiles.BuildProfileFields` | routes/api/profile.js:61-77 | the step-by-step conditional assignment of the optional fields, followed by `BuildSocial`, builds exactly `ProfileFields` |
| `Profiles.SocialFields` | routes/api/profile.js:72-77 | `social` holds a link exactly when the body's value for it is truthy, and then holds that value |
| `Profiles.BuildSocial` | routes/api/profile.js:72-77 | starting from `{}` and setting each truthy link one by one builds exactly `SocialFields` |
| `Profiles.SkillsRoundTrip` | routes/api/profile.js:65 | the skills pieces contain no comma, there is one more piece than commas, and joining them with "," gives back `body.skills` |
| `Profiles.SetFields` | routes/api/profile.js:82-86 | `$set` overwrites user, handle, status, skills and the whole social object; an optional field that profileFields lacks keeps its stored value |
| `Profiles.UpdateKeepsFalsyOptionalFields` | routes/api/profile.js:68-86 | on update, a falsy company, website or location leaves the stored value and a truthy one replaces it; each of the five social links that is falsy in the body is cleared |
| `Profiles.CreateKeepsHandlesUnique` | routes/api/profile.js:93-102 | inserting only when no profile holds the handle keeps handles unique |
| `Profiles.UpdateCanDuplicateHandle` | routes/api/profile.js:79-88 | the update path checks no handle, so updating to another user's handle leaves two profiles with that handle |
| `Profiles.ProfileStore.HandleTaken` | routes/api/profile.js:93-96 | the handle lookup succeeds exactly when some stored profile holds the handle, and never on an empty store |
| `Profiles.ProfileStore.Get` | routes/api/profile.js:26-42 | the reply is 404 exactly when the caller has no profile; otherwise it is the caller's profile |
| `Profiles.ProfileStore.CreateOrUpdate` | routes/api/profile.js:49-108 | a non-empty validator error map answers 422 and changes nothing; an existing profile is replaced by `SetFields(old, profileFields)` without a handle check; with no profile, a taken handle answers 409 and changes nothing, otherwise `profileFields` is stored; every profile stays filed under its own user |

## Left out

- Authentication with Passport JWT: the authenticated user id is a parameter.
- Mongoose persistence and `populate`: the collections are maps, and a save always succeeds. In the source a failed save gets a 500 from the `catch` in the create, delete, comment and delete-comment routes. The like route's save (routes/api/posts.js:116) and the profile writes (routes/api/profile.js:88, 102) have no `catch`, so a failed save there gets no reply.
- The `console.log(removeIndex)` in the delete-comment route (routes/api/posts.js:172): it only writes to the server log.
- Id generation: new post ids and comment ids are parameters that the methods require to be fresh, as the store's generated ids are.
- Dates: posts and comments carry no date, so `GET api/posts` (which sorts by date) is not part of this model.
- The read-only routes: `GET api/posts` and `GET api/posts/:id` only fetch from the store, and `GET api/posts/test` and `GET api/profile/test` answer a fixed message (routes/api/posts.js:19, routes/api/profile.js:19).
- Mongoose schema enforcement (models/Post.js). The comment that the handler builds has no `name` and no `date`, and the schema requires both. It also has a `user`, which the schema lacks. The model keeps the comment exactly as the handler builds it.
- The `Profile.findOne` lookup in the delete-post route (routes/api/posts.js:81): its result is never used.
- validation/profile.js, validation/is-empty.js and the `validator` package are not part of this model. The profile validator's error map is a parameter. `is-empty` on a string is taken to mean "nothing left after trimming white space". `isEmpty` and `isLength` are string emptiness and length, where a string is a sequence of Unicode scalar values.
- Body fields of non-string types: a post's `text`, `name` and `avatar` are absent or strings. A profile body's `handle`, `status` and `skills` are always present strings. In the source, if the profile validator (routes/api/profile.js:53-58) lets a body without `skills` through, `split` throws at routes/api/profile.js:65.
- The stored profile's other fields (experience, education and anything else the route does not set): this handler never reads or writes them.
- Concurrency: the fetch-then-save races between concurrent requests, and the gap between the handle check and the insert. Each route runs as one atomic step on the maps.
