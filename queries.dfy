/** Read-only views of the posts: the home page's "recent posts" slice and
    the lookup of one post by id. */
module Queries {
  import opened Entities
  import opened Collections

  /** How many posts the home page shows. */
  const RecentCount := 3

  /** Python's `s[start:]`: a negative start counts from the end and is
      clamped to 0, a start past the end gives the empty slice. */
  function SliceFrom<T>(s: seq<T>, start: int): (r: seq<T>)
    ensures |r| == if start >= 0 then (if start <= |s| then |s| - start else 0)
                   else (if -start <= |s| then -start else |s|)
    ensures r == s[|s| - |r|..]
  {
    var lo := if start < 0 then (if start + |s| < 0 then 0 else start + |s|)
              else (if start > |s| then |s| else start);
    s[lo..]
  }

  /** The posts on the home page: `posts[-3:]`, the last three in storage
      order, or all of them when there are fewer than three. */
  function Recent(posts: seq<Post>): (r: seq<Post>)
    ensures |r| == if |posts| < RecentCount then |posts| else RecentCount
    ensures r == posts[|posts| - |r|..]
    ensures |posts| <= RecentCount ==> r == posts
  {
    SliceFrom(posts, -RecentCount)
  }

  /** The position of the first post whose id is `id`, or None when no
      post has it. */
  function FindIndex(posts: seq<Post>, id: int): (r: Option<nat>)
    ensures r.Some? ==> r.value < |posts| && posts[r.value].id == id
    ensures r.Some? ==> forall j :: 0 <= j < r.value ==> posts[j].id != id
    ensures r.None? ==> forall j :: 0 <= j < |posts| ==> posts[j].id != id
  {
    if |posts| == 0 then None
    else if posts[0].id == id then Some(0)
    else match FindIndex(posts[1..], id)
      case None => None
      case Some(k) => Some(k + 1)
  }

  /** `next((p for p in posts if p["id"] == id), None)`: the first post in
      storage order with that id, or None. */
  function FindPost(posts: seq<Post>, id: int): (r: Option<Post>)
    ensures r.Some? <==> exists i :: 0 <= i < |posts| && posts[i].id == id
    ensures r.Some? ==> r.value.id == id
    ensures r.Some? ==> exists i :: 0 <= i < |posts| && posts[i] == r.value &&
                                    forall j :: 0 <= j < i ==> posts[j].id != id
  {
    match FindIndex(posts, id)
    case None => None
    case Some(i) => Some(posts[i])
  }

  /** Under the numbering invariant, id k names the post at position k - 1,
      and lookup fails exactly for ids outside 1..|posts|. */
  lemma FindNumbered(posts: seq<Post>, k: int)
    requires Numbered(PostIds(posts))
    ensures 1 <= k <= |posts| ==> FindPost(posts, k) == Some(posts[k - 1])
    ensures FindPost(posts, k).None? <==> !(1 <= k <= |posts|)
  {
  }

  /** Looking up an id after a post creation: an id some earlier post has
      still finds that earlier post; otherwise the new post is found exactly
      when its id is the one asked for. */
  lemma FindAfterAddPost(posts: seq<Post>, d: PostDraft, k: int)
    ensures FindPost(AddPost(posts, d), k) ==
              if FindPost(posts, k).Some? then FindPost(posts, k)
              else if k == |posts| + 1 then Some(PostFrom(|posts| + 1, d))
              else None
  {
  }

  /** With the invariant, the post just created is the one its id finds. */
  lemma FindCreatedPost(posts: seq<Post>, d: PostDraft)
    requires Numbered(PostIds(posts))
    ensures FindPost(AddPost(posts, d), |posts| + 1) == Some(PostFrom(|posts| + 1, d))
  {
  }

  /** After a post other than the last was removed by hand, the post
      created next gets the id of the post stored last, and looking that id
      up still returns the older post: the new one cannot be reached
      through its own id. */
  lemma RemoveInnerHidesCreatedPost(posts: seq<Post>, j: nat, d: PostDraft)
    requires Numbered(PostIds(posts)) && j < |posts| - 1
    ensures var rest := Without(posts, j);
            AddPost(rest, d)[|rest|].id == |posts| &&
            FindPost(AddPost(rest, d), |posts|) == Some(posts[|posts| - 1])
  {
    var rest := Without(posts, j);
    RemoveInnerGivesDuplicateId(posts, j, d);
    forall i | 0 <= i < |rest| - 1 ensures rest[i].id != |posts| {
      if i < j {
        assert PostIds(posts)[i] == i + 1;
      } else {
        assert PostIds(posts)[i + 1] == i + 2;
      }
    }
    match FindIndex(rest, |posts|) {
      case Some(k) => assert k == |rest| - 1;
      case None => assert false;
    }
    FindAfterAddPost(rest, d, |posts|);
  }

  /** Under the numbering invariant the home page shows the posts with the
      highest ids, in increasing order: for five posts, ids 3, 4, 5. */
  lemma RecentOfNumbered(posts: seq<Post>)
    requires Numbered(PostIds(posts))
    ensures forall i :: 0 <= i < |Recent(posts)| ==>
              Recent(posts)[i].id == |posts| - |Recent(posts)| + i + 1
    ensures |posts| == 5 ==> PostIds(Recent(posts)) == [3, 4, 5]
  {
  }
}
