/** The values the route handlers keep in the store. */
module Values {

  /** A posted comment (src/routes/comments.js builds it at lines 66-71); the
      sanitised HTML, the random id and the timestamp are opaque strings. */
  datatype Comment = Comment(id: string, author: string, content: string, timestamp: string)

  /** A stored JSON value: a string (rate-limit flags hold `'1'`), an integer
      (usage counters) or a comment list. */
  datatype Value = Str(s: string) | Int(n: int) | CommentList(items: seq<Comment>)

  /** JavaScript truthiness: `''` and `0` are falsy, every array is truthy. */
  predicate Truthy(v: Value) {
    match v
    case Str(s) => s != ""
    case Int(n) => n != 0
    case CommentList(_) => true
  }
}
