/** The records kept in the blog's data file: posts, contact messages and
    the document that holds both collections. */
module Entities {

  datatype Option<+T> = None | Some(value: T)

  /** A blog post as stored under "posts". */
  datatype Post = Post(id: int, title: string, content: string, author: string, timestamp: string)

  /** A contact-form message as stored under "contacts". */
  datatype Contact = Contact(id: int, name: string, email: string, message: string, timestamp: string)

  /** What a "create post" request supplies, together with the creation time
      the handler captures (an opaque ISO-8601 string here). */
  datatype PostDraft = PostDraft(title: string, content: string, author: string, timestamp: string)

  /** What a "contact" request supplies, together with its creation time. */
  datatype ContactDraft = ContactDraft(name: string, email: string, message: string, timestamp: string)

  /** The whole persisted document: always exactly the two collections. */
  datatype Snapshot = Snapshot(posts: seq<Post>, contacts: seq<Contact>)

  /** The post a draft becomes once it is given an id. */
  function PostFrom(id: int, d: PostDraft): (p: Post)
  {
    Post(id, d.title, d.content, d.author, d.timestamp)
  }

  /** The contact entry a draft becomes once it is given an id. */
  function ContactFrom(id: int, d: ContactDraft): (c: Contact)
  {
    Contact(id, d.name, d.email, d.message, d.timestamp)
  }
}
