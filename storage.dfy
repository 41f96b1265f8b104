/** The store: the data file, read in full by `load_data` and overwritten in
    full by `save_data`, and the in-memory document a request works on. */
module Storage {
  import opened Entities
  import opened Collections

  /** The document `load_data` returns for a given state of the data file
      (None when the file does not exist): the stored document, or two
      empty collections when there is no file. */
  function LoadedValue(file: Option<Snapshot>): (s: Snapshot)
    ensures file.None? ==> s.posts == [] && s.contacts == []
    ensures file.Some? ==> s == file.value
  {
    match file
    case None => Snapshot([], [])
    case Some(stored) => stored
  }

  /** The document a request loaded: a mutable pair of collections whose
      appends change it in place. */
  class Document {
    var posts: seq<Post>
    var contacts: seq<Contact>

    constructor (s: Snapshot)
      ensures posts == s.posts && contacts == s.contacts
    {
      posts := s.posts;
      contacts := s.contacts;
    }

    /** The document as it would be written out. */
    function Value(): (s: Snapshot)
      reads this
    {
      Snapshot(posts, contacts)
    }

    /** Builds the post with id "count + 1" and appends it to `posts`;
        `contacts` is untouched. */
    method AppendPost(d: PostDraft) returns (post: Post)
      modifies this
      ensures post == PostFrom(|old(posts)| + 1, d)
      ensures posts == AddPost(old(posts), d)
      ensures contacts == old(contacts)
    {
      post := PostFrom(|posts| + 1, d);
      posts := posts + [post];
    }

    /** Builds the contact entry with id "count + 1" and appends it to
        `contacts`; `posts` is untouched. */
    method AppendContact(d: ContactDraft) returns (entry: Contact)
      modifies this
      ensures entry == ContactFrom(|old(contacts)| + 1, d)
      ensures contacts == AddContact(old(contacts), d)
      ensures posts == old(posts)
    {
      entry := ContactFrom(|contacts| + 1, d);
      contacts := contacts + [entry];
    }
  }

  /** The data file. */
  class DataFile {
    /** The file's document, or None while the file does not exist. */
    var file: Option<Snapshot>

    /** What a load would return now. */
    function Stored(): (s: Snapshot)
      reads this
    {
      LoadedValue(file)
    }

    /** The stored posts satisfy the numbering invariant. */
    predicate PostsNumbered()
      reads this
    {
      Numbered(PostIds(Stored().posts))
    }

    /** The stored contact entries satisfy the numbering invariant. */
    predicate ContactsNumbered()
      reads this
    {
      Numbered(ContactIds(Stored().contacts))
    }

    /** `load_data`: a fresh document holding what is stored. */
    method Load() returns (data: Document)
      ensures fresh(data)
      ensures data.Value() == Stored()
    {
      data := new Document(LoadedValue(file));
    }

    /** `save_data`: overwrites the file with the whole document. */
    method Save(data: Document)
      modifies this
      ensures file == Some(data.Value())
    {
      file := Some(data.Value());
    }
  }
}
