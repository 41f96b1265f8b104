/** The data logic of the request handlers: each one loads the whole
    document, reads or appends to one collection, and a mutation saves the
    whole document back. Routing and page rendering are not modelled. */
module App {
  import opened Entities
  import opened Collections
  import opened Queries
  import opened Storage

  /** Home page: the last three posts in storage order. */
  method Index(store: DataFile) returns (posts: seq<Post>)
    ensures posts == Recent(store.Stored().posts)
    ensures posts == store.Stored().posts[|store.Stored().posts| - |posts|..]
  {
    var data := store.Load();
    posts := Recent(data.posts);
  }

  /** Blog page and the posts API: every stored post, in storage order. */
  method ListPosts(store: DataFile) returns (posts: seq<Post>)
    ensures posts == store.Stored().posts
  {
    var data := store.Load();
    posts := data.posts;
  }

  /** Contacts API: every stored contact entry, in storage order. */
  method ListContacts(store: DataFile) returns (contacts: seq<Contact>)
    ensures contacts == store.Stored().contacts
  {
    var data := store.Load();
    contacts := data.contacts;
  }

  /** Post page: the first stored post with the requested id, or None
      (the "Post not found!" outcome). With the numbering invariant, id k
      finds the k-th post and nothing else is found. */
  method ViewPost(store: DataFile, id: int) returns (post: Option<Post>)
    ensures post == FindPost(store.Stored().posts, id)
    ensures store.PostsNumbered() ==>
              (post.None? <==> !(1 <= id <= |store.Stored().posts|)) &&
              (post.Some? ==> post.value == store.Stored().posts[id - 1])
  {
    var data := store.Load();
    post := FindPost(data.posts, id);
    if store.PostsNumbered() {
      FindNumbered(data.posts, id);
    }
  }

  /** Creating a post: load, append the post with id "count + 1", save.
      Only `posts` changes, and the numbering invariant is kept, so the new
      post is the one its id finds. */
  method NewPost(store: DataFile, d: PostDraft) returns (post: Post)
    modifies store
    ensures post == PostFrom(|old(store.Stored()).posts| + 1, d)
    ensures store.Stored() == Snapshot(AddPost(old(store.Stored()).posts, d), old(store.Stored()).contacts)
    ensures store.file.Some?
    ensures old(store.PostsNumbered()) ==> store.PostsNumbered()
    ensures old(store.ContactsNumbered()) ==> store.ContactsNumbered()
    ensures old(store.PostsNumbered()) ==> FindPost(store.Stored().posts, post.id) == Some(post)
  {
    ghost var before := store.Stored();
    var data := store.Load();
    post := data.AppendPost(d);
    store.Save(data);
    if old(store.PostsNumbered()) {
      AddPostKeepsNumbering(before.posts, d);
      FindCreatedPost(before.posts, d);
    }
  }

  /** Submitting the contact form: load, append the entry with id
      "count + 1", save. Only `contacts` changes, and the numbering
      invariant is kept. */
  method SubmitContact(store: DataFile, d: ContactDraft) returns (entry: Contact)
    modifies store
    ensures entry == ContactFrom(|old(store.Stored()).contacts| + 1, d)
    ensures store.Stored() == Snapshot(old(store.Stored()).posts, AddContact(old(store.Stored()).contacts, d))
    ensures store.file.Some?
    ensures old(store.ContactsNumbered()) ==> store.ContactsNumbered()
    ensures old(store.PostsNumbered()) ==> store.PostsNumbered()
  {
    ghost var before := store.Stored();
    var data := store.Load();
    entry := data.AppendContact(d);
    store.Save(data);
    if old(store.ContactsNumbered()) {
      AddContactKeepsNumbering(before.contacts, d);
    }
  }

  /** Start-up: when there is no data file, write the sample document;
      an existing file is left alone. */
  method InitSampleData(store: DataFile, timestamp: string)
    modifies store
    ensures old(store.file).None? ==> store.file == Some(SampleData(timestamp))
    ensures old(store.file).Some? ==> store.file == old(store.file)
    ensures old(store.file).None? ==> store.PostsNumbered() && store.ContactsNumbered()
  {
    if store.file.None? {
      var sample := new Document(SampleData(timestamp));
      store.Save(sample);
    }
  }
}
