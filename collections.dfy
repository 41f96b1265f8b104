/** Collection operations on values: appending one entry to one collection
    with id "count + 1", the seed document, and the numbering invariant
    "every entry's id is its 1-based position". */
module Collections {
  import opened Entities

  /** The numbering invariant on a sequence of ids. */
  predicate Numbered(ids: seq<int>)
  {
    forall i :: 0 <= i < |ids| ==> ids[i] == i + 1
  }

  /** Pairwise distinct ids. */
  predicate Distinct(ids: seq<int>)
  {
    forall i, j :: 0 <= i < |ids| && 0 <= j < |ids| && i != j ==> ids[i] != ids[j]
  }

  /** The ids of the posts, in storage order. */
  function PostIds(posts: seq<Post>): (ids: seq<int>)
    ensures |ids| == |posts|
    ensures forall i :: 0 <= i < |posts| ==> ids[i] == posts[i].id
  {
    seq(|posts|, i requires 0 <= i < |posts| => posts[i].id)
  }

  /** The ids of the contact entries, in storage order. */
  function ContactIds(contacts: seq<Contact>): (ids: seq<int>)
    ensures |ids| == |contacts|
    ensures forall i :: 0 <= i < |contacts| ==> ids[i] == contacts[i].id
  {
    seq(|contacts|, i requires 0 <= i < |contacts| => contacts[i].id)
  }

  /** The posts after one creation: the draft gets id |posts| + 1 and goes
      at the end; every earlier post stays where it was. */
  function AddPost(posts: seq<Post>, d: PostDraft): (r: seq<Post>)
    ensures |r| == |posts| + 1
    ensures r[..|posts|] == posts
    ensures r[|posts|] == PostFrom(|posts| + 1, d)
  {
    posts + [PostFrom(|posts| + 1, d)]
  }

  /** The contact entries after one submission, in the same way. */
  function AddContact(contacts: seq<Contact>, d: ContactDraft): (r: seq<Contact>)
    ensures |r| == |contacts| + 1
    ensures r[..|contacts|] == contacts
    ensures r[|contacts|] == ContactFrom(|contacts| + 1, d)
  {
    contacts + [ContactFrom(|contacts| + 1, d)]
  }

  /** The posts after creating the drafts one after another, in call order. */
  function CreatePosts(posts: seq<Post>, drafts: seq<PostDraft>): (r: seq<Post>)
    decreases |drafts|
  {
    if drafts == [] then posts else CreatePosts(AddPost(posts, drafts[0]), drafts[1..])
  }

  /** The sample document written on first start: one welcome post with
      id 1 and no contact entries. */
  function SampleData(timestamp: string): (s: Snapshot)
    ensures |s.posts| == 1 && s.posts[0].id == 1 && s.posts[0].timestamp == timestamp
    ensures s.contacts == []
    ensures Numbered(PostIds(s.posts)) && Numbered(ContactIds(s.contacts))
  {
    Snapshot(
      [Post(1, "Welcome to Our Blog",
            "This is our first blog post. Welcome to our website!",
            "Admin", timestamp)],
      [])
  }

  lemma NumberedIsDistinct(ids: seq<int>)
    requires Numbered(ids)
    ensures Distinct(ids)
  {
  }

  /** Numbering is kept by a post creation, and the new id is one no
      earlier post has. */
  lemma AddPostKeepsNumbering(posts: seq<Post>, d: PostDraft)
    requires Numbered(PostIds(posts))
    ensures Numbered(PostIds(AddPost(posts, d)))
    ensures forall i :: 0 <= i < |posts| ==> posts[i].id != |posts| + 1
  {
  }

  /** Numbering is kept by a contact submission, and the new id is one no
      earlier entry has. */
  lemma AddContactKeepsNumbering(contacts: seq<Contact>, d: ContactDraft)
    requires Numbered(ContactIds(contacts))
    ensures Numbered(ContactIds(AddContact(contacts, d)))
    ensures forall i :: 0 <= i < |contacts| ==> contacts[i].id != |contacts| + 1
  {
  }

  /** Creating the drafts one after another keeps the existing posts and
      appends one post per draft, in call order, the k-th created one
      getting id |posts| + k. */
  lemma {:induction false} CreatePostsAppends(posts: seq<Post>, drafts: seq<PostDraft>)
    ensures |CreatePosts(posts, drafts)| == |posts| + |drafts|
    ensures CreatePosts(posts, drafts)[..|posts|] == posts
    ensures forall i :: 0 <= i < |drafts| ==>
              CreatePosts(posts, drafts)[|posts| + i] == PostFrom(|posts| + i + 1, drafts[i])
    decreases |drafts|
  {
    if drafts != [] {
      var next := AddPost(posts, drafts[0]);
      CreatePostsAppends(next, drafts[1..]);
      var r := CreatePosts(posts, drafts);
      assert r == CreatePosts(next, drafts[1..]);
      assert r[..|posts|] == next[..|next|][..|posts|];
      forall i | 0 <= i < |drafts|
        ensures r[|posts| + i] == PostFrom(|posts| + i + 1, drafts[i])
      {
        if i > 0 {
          assert r[|next| + (i - 1)] == PostFrom(|next| + (i - 1) + 1, drafts[1..][i - 1]);
        } else {
          assert r[..|next|] == next;
          assert r[|posts|] == r[..|next|][|posts|];
        }
      }
    }
  }

  /** N creations starting from no posts yield ids 1..N in call order, all
      distinct, each post carrying its own draft's fields. */
  lemma CreateFromEmptyNumbers(drafts: seq<PostDraft>)
    ensures |CreatePosts([], drafts)| == |drafts|
    ensures forall i :: 0 <= i < |drafts| ==> CreatePosts([], drafts)[i] == PostFrom(i + 1, drafts[i])
    ensures Numbered(PostIds(CreatePosts([], drafts)))
    ensures Distinct(PostIds(CreatePosts([], drafts)))
  {
    var none: seq<Post> := [];
    CreatePostsAppends(none, drafts);
    var ids := PostIds(CreatePosts(none, drafts));
    forall i | 0 <= i < |ids| ensures ids[i] == i + 1 {
      assert CreatePosts(none, drafts)[|none| + i] == PostFrom(i + 1, drafts[i]);
    }
    NumberedIsDistinct(ids);
  }

  /** The posts left when the one at position j is removed from the file
      by hand (no operation of the site removes anything). */
  function Without(posts: seq<Post>, j: nat): (r: seq<Post>)
    requires j < |posts|
    ensures |r| == |posts| - 1
    ensures forall i :: 0 <= i < j ==> r[i] == posts[i]
    ensures forall i :: j <= i < |r| ==> r[i] == posts[i + 1]
  {
    posts[..j] + posts[j + 1..]
  }

  /** Removing the last post keeps the numbering, so the next id is fresh. */
  lemma RemoveLastKeepsNumbering(posts: seq<Post>)
    requires Numbered(PostIds(posts)) && |posts| > 0
    ensures Numbered(PostIds(Without(posts, |posts| - 1)))
  {
  }

  /** Removing any post but the last breaks the numbering: "count + 1" then
      hands out the id of the post that is still stored last. */
  lemma RemoveInnerGivesDuplicateId(posts: seq<Post>, j: nat, d: PostDraft)
    requires Numbered(PostIds(posts)) && j < |posts| - 1
    ensures var rest := Without(posts, j);
            AddPost(rest, d)[|rest|].id == rest[|rest| - 1].id == |posts|
  {
    assert PostIds(posts)[|posts| - 1] == |posts|;
  }
}
