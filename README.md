# Blog data layer: a Dafny model

This project models the data-access layer of a small Flask website that has a blog
and a contact form (`main.py`). All state lives in one JSON document, `data.json`,
which holds two ordered collections: `posts` and `contacts`. Every request that reads
or writes data loads the whole document. Every mutation appends one entry to one collection and writes
the whole document back.

The model has five modules:

- `Entities` holds the records. `Post` and `Contact` are as stored. `PostDraft` and
  `ContactDraft` hold what a request supplies, plus the creation time. `Snapshot`
  is the whole document.
- `Collections` describes appends as values. The new entry gets id "count + 1" and
  goes at the end. The module also defines the seed document and the numbering
  invariant `Numbered`, which says the entry at position i has id i + 1. Its lemmas
  prove that appends keep this invariant and that N creations from empty yield ids
  1..N in call order.
- `Queries` holds two read-only views. The home page's `posts[-3:]` is modelled as
  a general Python `s[start:]` (`SliceFrom`). The lookup
  `next((p for p in posts if p["id"] == id), None)` is a first-match linear scan.
- `Storage` models the stored file as the class `DataFile`. Its field is
  `Option<Snapshot>`, and `None` means the file does not exist. The loaded document
  is the class `Document`, whose `AppendPost` and `AppendContact` change its
  sequence fields in place, as the `.append` calls do.
- `App` holds what each request handler does with the data. The two mutating
  handlers (`NewPost`, `SubmitContact`) load, append and save, and state the new
  stored document in terms of the old one. The read handlers (`Index`,
  `ListPosts`, `ListContacts`, `ViewPost`) only load, and leave the store
  unchanged.

The timestamp (`datetime.now().isoformat()`) is an opaque string parameter inside
the drafts. The file's contents are modelled as already-parsed values, so `save`
followed by `load` gives back the same document.

Some consequences of the id rule are worth knowing:

- "count + 1" gives fresh, distinct ids as long as the numbering invariant holds.
  Every operation here keeps it, and so does the sample document.
- If a post other than the last one is removed from the file by hand, the next
  creation reuses the id of the post stored last (`RemoveInnerGivesDuplicateId`).
  Lookup by that id then still returns the older post, so the new one cannot be
  reached through its own id (`RemoveInnerHidesCreatedPost`). It is still stored
  last, so it still appears on the home page, the blog page and the posts API. Removing only the last post keeps the numbering
  (`RemoveLastKeepsNumbering`), so the next id is fresh.
- "Recent" means the last three posts in storage order. It never sorts by
  timestamp.

Two points about listing:

- The code has no general `limit` argument for listing posts. It has only the
  fixed `[-3:]` on the home page.
- Listing posts and the posts API both return the full sequence.

## Model

| member | source | states |
|---|---|---|
| `Storage.LoadedValue` | main.py:14-19 | With no data file the loaded document has empty `posts` and empty `contacts`. Otherwise it is exactly the stored document. |
| `Storage.DataFile.Load` | main.py:14-19 | Loading returns a fresh in-memory document equal to what is stored, or the empty document when the file is missing. |
| `Storage.DataFile.Save` | main.py:22-25 | Saving overwrites the file with the whole document. The file exists afterwards. |
| `Storage.Document.AppendPost` | main.py:73-80 | The new post has id = old number of posts + 1 and carries the draft's title, content, author and timestamp. It is appended at the end of `posts`. Earlier posts and `contacts` are unchanged. |
| `Storage.Document.AppendContact` | main.py:47-54 | The new entry has id = old number of contacts + 1 and the draft's fields. It is appended at the end of `contacts`. `posts` is unchanged. |
| `Collections.AddPost` | main.py:73-80 | One creation as a value: exactly one more post, the old posts as a prefix, the new post last with id `\|posts\| + 1`. |
| `Collections.AddContact` | main.py:47-54 | One submission as a value: exactly one more entry, the old entries as a prefix, the new one last with id `\|contacts\| + 1`. |
| `Collections.AddPostKeepsNumbering` | main.py:73-80 | If every post's id is its 1-based position, this still holds after a creation, and the new id is used by no earlier post. |
| `Collections.AddContactKeepsNumbering` | main.py:47-54 | The same for contacts: numbering is kept and the new id is fresh. |
| `Collections.NumberedIsDistinct` | main.py:74 | Under the numbering invariant all ids are pairwise distinct. |
| `Collections.CreatePostsAppends` | main.py:72-81 | Creating several posts one after another keeps the existing posts as a prefix. It appends one post per request in call order, and the i-th new post gets id `\|posts\| + i + 1` and that request's fields. |
| `Collections.CreateFromEmptyNumbers` | main.py:74-80 | N creations starting with no posts yield ids 1..N in call order. The ids are numbered and distinct, and each post carries its own request's fields. |
| `Collections.RemoveLastKeepsNumbering` | main.py:74 | If only the last post is removed from a numbered sequence, the rest is still numbered, so "count + 1" stays fresh. |
| `Collections.RemoveInnerGivesDuplicateId` | main.py:74 | If any post other than the last is removed from a numbered sequence, "count + 1" hands out the id of the post still stored last. |
| `Collections.SampleData` | main.py:127-138 | The seed document has one post, with id 1 and the given timestamp, and no contacts. It satisfies the numbering invariant. |
| `Queries.SliceFrom` | main.py:32 | Python `s[start:]`: the result is a suffix of `s`. Its length is `\|s\| - start` clamped to 0 for a non-negative start, and `min(-start, \|s\|)` for a negative start. |
| `Queries.Recent` | main.py:32 | The home page shows a suffix of `posts` of length `min(3, \|posts\|)`, in storage order. With at most three posts it shows the whole list. |
| `Queries.RecentOfNumbered` | main.py:32 | Under the numbering invariant the recent posts are those with the highest ids, in increasing order. For five posts their ids are exactly 3, 4, 5. |
| `Queries.FindIndex` | main.py:91 | The result is the position of the first post with the requested id. It is None exactly when no post has that id. |
| `Queries.FindPost` | main.py:91 | The lookup finds a post iff some post has the id. The post found has that id and sits at a position before which no post has it. |
| `Queries.FindNumbered` | main.py:91-94 | Under the numbering invariant, id k finds `posts[k-1]` for 1 <= k <= \|posts\|, and "not found" happens exactly for ids outside that range. |
| `Queries.FindAfterAddPost` | main.py:91 | After a creation, an id that an earlier post has still finds that earlier post. Otherwise the new post is found exactly when its id is the one requested. |
| `Queries.FindCreatedPost` | main.py:91 | Under the numbering invariant, the post just created is found by its own id. |
| `Queries.RemoveInnerHidesCreatedPost` | main.py:91 | After any post but the last is removed from a numbered sequence, the next created post gets id \|posts\|, and looking that id up returns the older post stored last, not the new one. |
| `App.Index` | main.py:28-33 | The home page gets `Recent` of the stored posts, a suffix of the stored sequence. Nothing is saved. |
| `App.ListPosts` | main.py:61-65 | The blog page (and `/api/posts`, lines 98-102) returns the stored posts unchanged and in full. |
| `App.ListContacts` | main.py:105-109 | `/api/contacts` returns the stored contact entries unchanged and in full. |
| `App.ViewPost` | main.py:87-95 | Returns the first stored post with the requested id, or None (the "not found" outcome). When the stored posts are numbered, None happens iff the id is outside 1..\|posts\|, and otherwise the result is the id-th post. |
| `App.NewPost` | main.py:68-83 | The stored document becomes the old posts with the new post (id count + 1) appended, and the old contacts. The file exists afterwards. Numbering of posts and of contacts is each preserved, and when the posts were numbered the new post is found by its id. |
| `App.SubmitContact` | main.py:42-57 | The stored document becomes the old posts and the old contacts with the new entry (id count + 1) appended. The file exists afterwards, and numbering of contacts and of posts is each preserved. |
| `App.InitSampleData` | main.py:124-139 | With no data file, the sample document is written and satisfies the numbering invariant. An existing file is left as it was. |

## Left out

- Flask routing, `render_template`, `flash`, `redirect`/`url_for`, `jsonify` and the 404/500 handlers (main.py:28-121). They are presentation calls into a library outside this model. Each handler keeps only its data logic, and the GET branches of `contact` and `new_post` only render a page.
- File I/O and JSON (de)serialisation (`open`, `json.load`, `json.dump`) are left out because they are library calls. The file is an `Option<Snapshot>` of parsed values. A file that exists but does not parse or does not have the two-collection shape (a missing `posts`/`contacts` key, an entry without `"id"`), extra keys that Python would carry through a load/append/save cycle, and write failures are not modelled.
- `datetime.now().isoformat()` is wall-clock time, so it is passed in as an opaque timestamp string.
- Extracting fields from `request.form` is left out. In the source a missing field raises after the document is loaded and before it is saved, so nothing is stored. The model takes the fields as given.
- Lost updates between concurrent load/append/save cycles are left out. Every operation here runs alone, from load to save.
- The secret key and `app.run` (main.py:7, 141) are configuration and process start-up.
- `App.ViewPost` takes any integer id. Flask's `<int:...>` converter only admits non-negative ones, which is a subset of what the model covers.
- The `if not post` test is modelled as "no post found". A stored post is a non-empty dictionary, so it is never falsy.
