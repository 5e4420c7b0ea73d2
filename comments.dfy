/** The comment board of src/routes/comments.js: reading a page's comments
    and posting one, as transitions of the in-memory store. Markdown
    rendering, HTML sanitising, the random id and the timestamp come from
    outside and are parameters. */
module Comments {
  import opened Wrappers
  import opened JsString
  import opened Values
  import opened Store
  import opened Http

  const MinLength := 2
  const MaxLength := 500
  const MaxComments := 50
  const RateLimitSeconds := 60
  const TotalKey := "usage:total"
  const CommentsKey := "usage:comments"
  const TooMany := "Too many requests. Wait 60s."
  const PostFailed := "Failed to post comment"

  /** The two ways `content` can fail the length checks. */
  datatype LengthError = TooShort | TooLong {
    function Message(): string {
      match this
      case TooShort => "Comment too short"
      case TooLong => "Comment too long (max 500 chars)"
    }
  }

  /** The request body's `author` and `content`, `None` when omitted. */
  datatype CommentForm = CommentForm(author: Option<string>, content: Option<string>)

  /** What the POST handler gets from its collaborators: `marked.parse`,
      `sanitizeHtml` with the comment options, `sanitizeHtml` with its
      defaults (for the author), the random id and the current time. */
  datatype Collaborators = Collaborators(
    markdown: string -> string,
    sanitizeContent: string -> string,
    sanitizeAuthor: string -> string,
    id: string,
    timestamp: string)

  /** The store after a POST and the handler's answer (the created comment, or an error). */
  datatype PostResult = PostResult(state: State, response: Reply<Comment>)

  /** The store key of a page's comment list. */
  function ListKey(pageId: string): string {
    "comments:" + pageId
  }

  /** `ip.replace(/:/g, '_')`. */
  function ReplaceColons(s: string): (r: string)
    ensures |r| == |s|
    ensures forall i :: 0 <= i < |s| ==> r[i] == (if s[i] == ':' then '_' else s[i])
  {
    if s == [] then [] else [if s[0] == ':' then '_' else s[0]] + ReplaceColons(s[1..])
  }

  /** The store key of a client's rate limit. */
  function RateLimitKey(ip: string): (r: string)
    ensures |r| == 18 + |ip| && r[..18] == "ratelimit:comment:"
    ensures forall i :: 0 <= i < |ip| ==> r[18 + i] == (if ip[i] == ':' then '_' else ip[i])
  {
    "ratelimit:comment:" + ReplaceColons(ip)
  }

  /** The rate-limit key is the fixed prefix followed by the address with
      every `:` turned into `_`, so it has no colon after the prefix; it is
      never a page's list key nor a usage counter. */
  lemma RateLimitKeyShape(ip: string, pageId: string)
    ensures var key := RateLimitKey(ip);
            |key| == 18 + |ip| && key[..18] == "ratelimit:comment:" &&
            (forall i :: 18 <= i < |key| ==> key[i] != ':') &&
            key != ListKey(pageId) && key != TotalKey && key != CommentsKey
  {
    var key := RateLimitKey(ip);
    assert key[0] == 'r' && ListKey(pageId)[0] == 'c' && TotalKey[0] == 'u';
    forall i | 18 <= i < |key| ensures key[i] != ':' {
      assert key[i] == ReplaceColons(ip)[i - 18];
    }
  }

  /** A page's list key is never a usage counter. */
  lemma ListKeyIsNotCounter(pageId: string)
    ensures ListKey(pageId) != TotalKey && ListKey(pageId) != CommentsKey
  {
    assert ListKey(pageId)[0] == 'c' && TotalKey[0] == 'u';
  }

  /** The length checks, in the handler's order: a missing content, or one
      shorter than two after trimming, is too short; otherwise one longer
      than 500 (counted untrimmed, in UTF-16 units) is too long. */
  function CheckContent(content: Option<string>): (r: Option<LengthError>)
    ensures r == Some(TooShort) <==> content.None? || Utf16Length(Trim(content.value)) < MinLength
    ensures r == Some(TooLong) <==>
              content.Some? && Utf16Length(Trim(content.value)) >= MinLength && Utf16Length(content.value) > MaxLength
    ensures r.None? ==> content.Some? && 1 <= |content.value| <= MaxLength
  {
    if content.None? then Some(TooShort)
    else
      TrimBounds(content.value);
      if Utf16Length(Trim(content.value)) < MinLength then Some(TooShort)
      else if Utf16Length(content.value) > MaxLength then Some(TooLong)
      else None
  }

  /** `await db.get(key) || []`, ready for `unshift`: a falsy or absent value is
      the empty list; a truthy value that is not a list makes `unshift` throw. */
  function StoredList(v: Option<Value>): (r: Option<seq<Comment>>)
    ensures r.None? <==> v.Some? && !v.value.CommentList? && Truthy(v.value)
    ensures v.Some? && v.value.CommentList? ==> r == Some(v.value.items)
    ensures v.None? || !Truthy(v.value) ==> r == Some([])
  {
    match v
    case None => Some([])
    case Some(CommentList(items)) => Some(items)
    case Some(other) => if Truthy(other) then None else Some([])
  }

  /** `comments.unshift(c)` then `comments.slice(0, 50)`. */
  function CapPrepend(c: Comment, list: seq<Comment>): (r: seq<Comment>)
    ensures |r| == if |list| + 1 < MaxComments then |list| + 1 else MaxComments
    ensures r[0] == c && r[1..] == list[..|r| - 1]
  {
    var all := [c] + list;
    if |all| <= MaxComments then all else all[..MaxComments]
  }

  /** The comment the handler builds; `author` defaults to `'Anonymous'`. */
  function NewComment(form: CommentForm, env: Collaborators): (c: Comment)
    requires form.content.Some?
    ensures form.author.None? ==> c.author == env.sanitizeAuthor("Anonymous")
    ensures form.author.Some? ==> c.author == env.sanitizeAuthor(form.author.value)
    ensures c.content == env.sanitizeContent(env.markdown(form.content.value))
    ensures c.id == env.id && c.timestamp == env.timestamp
  {
    Comment(env.id, env.sanitizeAuthor(form.author.GetOr("Anonymous")),
            env.sanitizeContent(env.markdown(form.content.value)), env.timestamp)
  }

  /** The usage counters can be incremented. */
  predicate CountersCountable(st: State) {
    Countable(st, TotalKey) && Countable(st, CommentsKey)
  }

  /** POST `/:pageId` from the client `ip` (`None` when the address is
      `undefined`): the effect on the store and the response. Every error exit
      leaves the store as it was. */
  function Post(st: State, pageId: string, form: CommentForm, ip: Option<string>, env: Collaborators): (r: PostResult)
    requires CountersCountable(st)
    ensures r.response.Fail? ==> r.state == st
  {
    var error := CheckContent(form.content);
    if error.Some? then PostResult(st, Fail(400, error.value.Message()))
    else if ip.None? then PostResult(st, Fail(500, PostFailed))
    else
      var rateKey := RateLimitKey(ip.value);
      var limited := Lookup(st, rateKey);
      if limited.Some? && Truthy(limited.value) then PostResult(st, Fail(429, TooMany))
      else
        var comment := NewComment(form, env);
        var list := StoredList(Lookup(st, ListKey(pageId)));
        if list.None? then PostResult(st, Fail(500, PostFailed))
        else
          PostResult(Saved(st, pageId, ip.value, CommentList(CapPrepend(comment, list.value))), Ok(comment))
  }

  /** The checks decide the error in the handler's order, before the store is consulted. */
  lemma {:induction false} PostRejects(st: State, pageId: string, form: CommentForm, ip: Option<string>, env: Collaborators)
    requires CountersCountable(st)
    ensures var r := Post(st, pageId, form, ip, env);
            (CheckContent(form.content).Some? ==> r == PostResult(st, Fail(400, CheckContent(form.content).value.Message()))) &&
            ((CheckContent(form.content).None? && ip.Some? &&
              Lookup(st, RateLimitKey(ip.value)).Some? && Truthy(Lookup(st, RateLimitKey(ip.value)).value))
             ==> r == PostResult(st, Fail(429, TooMany)))
  {
  }

  /** A successful post stores the new comment at the head of the page's list,
      capped at 50; sets the rate-limit key to `'1'` with one 60-second expiry;
      adds exactly 1 to each usage counter; and changes no other key. */
  lemma {:induction false} PostSucceeds(st: State, pageId: string, form: CommentForm, ip: string, env: Collaborators)
    requires CountersCountable(st)
    requires CheckContent(form.content).None?
    requires !(Lookup(st, RateLimitKey(ip)).Some? && Truthy(Lookup(st, RateLimitKey(ip)).value))
    requires StoredList(Lookup(st, ListKey(pageId))).Some?
    ensures var r := Post(st, pageId, form, Some(ip), env);
            var old_ := StoredList(Lookup(st, ListKey(pageId))).value;
            var c := NewComment(form, env);
            var key := RateLimitKey(ip);
            r.response == Ok(c) &&
            c.author == env.sanitizeAuthor(form.author.GetOr("Anonymous")) &&
            Lookup(r.state, ListKey(pageId)) == Some(CommentList(CapPrepend(c, old_))) &&
            Lookup(r.state, key) == Some(Str("1")) &&
            r.state.timers == st.timers + [Timer(key, RateLimitSeconds)] &&
            CountersCountable(r.state) &&
            Count(r.state, TotalKey) == Count(st, TotalKey) + 1 &&
            Count(r.state, CommentsKey) == Count(st, CommentsKey) + 1 &&
            (forall k :: k != ListKey(pageId) && k != key && k != TotalKey && k != CommentsKey ==>
               Lookup(r.state, k) == Lookup(st, k))
  {
    var c := NewComment(form, env);
    SavedEffect(st, pageId, ip, CommentList(CapPrepend(c, StoredList(Lookup(st, ListKey(pageId))).value)));
  }

  /** Every stored comment list has at most 50 entries. */
  ghost predicate ListsCapped(st: State) {
    forall k :: k in st.entries && st.entries[k].CommentList? ==> |st.entries[k].items| <= MaxComments
  }

  /** Posting keeps every comment list within the cap. */
  lemma {:induction false} PostKeepsListsCapped(st: State, pageId: string, form: CommentForm, ip: Option<string>, env: Collaborators)
    requires CountersCountable(st) && ListsCapped(st)
    ensures ListsCapped(Post(st, pageId, form, ip, env).state)
  {
    var r := Post(st, pageId, form, ip, env);
    if r.response.Ok? {
      PostSucceeds(st, pageId, form, ip.value, env);
      forall k | k in r.state.entries && r.state.entries[k].CommentList?
        ensures |r.state.entries[k].items| <= MaxComments
      {
        if k != ListKey(pageId) && k != RateLimitKey(ip.value) && k != TotalKey && k != CommentsKey {
          assert Lookup(r.state, k) == Lookup(st, k);
        } else {
          assert Lookup(r.state, k) == Some(r.state.entries[k]);
        }
      }
    }
  }

  /** A second post from the same address, to any page and before the
      rate-limit timer has run, is refused with 429 and changes nothing. */
  lemma {:induction false} SecondPostIsLimited(st: State, pageId: string, form: CommentForm, ip: string, env: Collaborators,
                                               pageId2: string, form2: CommentForm, env2: Collaborators)
    requires CountersCountable(st)
    requires Post(st, pageId, form, Some(ip), env).response.Ok?
    requires CheckContent(form2.content).None?
    ensures var s1 := Post(st, pageId, form, Some(ip), env).state;
            CountersCountable(s1) &&
            Post(s1, pageId2, form2, Some(ip), env2) == PostResult(s1, Fail(429, TooMany))
  {
    PostRejects(st, pageId, form, Some(ip), env);
    PostSucceeds(st, pageId, form, ip, env);
    var s1 := Post(st, pageId, form, Some(ip), env).state;
    assert Lookup(s1, RateLimitKey(ip)) == Some(Str("1"));
    PostRejects(s1, pageId2, form2, Some(ip), env2);
  }

  /** Once the timer scheduled by a successful post has run, the address is
      no longer rate limited. */
  lemma {:induction false} LimitLiftsAfterExpiry(st: State, pageId: string, form: CommentForm, ip: string, env: Collaborators)
    requires CountersCountable(st)
    requires Post(st, pageId, form, Some(ip), env).response.Ok?
    ensures var s1 := Post(st, pageId, form, Some(ip), env).state;
            |st.timers| < |s1.timers| &&
            Lookup(Expire(s1, |st.timers|), RateLimitKey(ip)).None?
  {
    PostRejects(st, pageId, form, Some(ip), env);
    PostSucceeds(st, pageId, form, ip, env);
  }

  /** GET `/:pageId`: the stored value, or `[]` when there is none (or it is falsy). */
  method ListComments(db: MemoryStore, pageId: string) returns (r: Value)
    ensures ListKey(pageId) !in db.storage ==> r == CommentList([])
    ensures ListKey(pageId) in db.storage && Truthy(db.storage[ListKey(pageId)]) ==> r == db.storage[ListKey(pageId)]
    ensures ListKey(pageId) in db.storage && !Truthy(db.storage[ListKey(pageId)]) ==> r == CommentList([])
  {
    var stored := db.Get(ListKey(pageId));
    r := if stored.Some? && Truthy(stored.value) then stored.value else CommentList([]);
  }

  /** POST `/:pageId`, run against the store: it reads and writes the store in
      the handler's order and ends in the state, and with the response, that
      `Post` gives. */
  method PostComment(db: MemoryStore, pageId: string, form: CommentForm,
                     forwardedFor: Option<string>, remoteAddress: Option<string>, env: Collaborators)
    returns (response: Reply<Comment>)
    requires db.Valid() && CountersCountable(db.Snapshot())
    modifies db
    ensures db.Valid()
    ensures PostResult(db.Snapshot(), response) ==
            Post(old(db.Snapshot()), pageId, form, ClientAddress(forwardedFor, remoteAddress), env)
  {
    var ip := ClientAddress(forwardedFor, remoteAddress);
    var error := CheckContent(form.content);
    if error.Some? {
      return Fail(400, error.value.Message());
    }
    if ip.None? {
      return Fail(500, PostFailed);
    }
    var rateKey := RateLimitKey(ip.value);
    var limited := db.Get(rateKey);
    if limited.Some? && Truthy(limited.value) {
      return Fail(429, TooMany);
    }
    var comment := NewComment(form, env);
    var stored := db.Get(ListKey(pageId));
    var list := StoredList(stored);
    if list.None? {
      return Fail(500, PostFailed);
    }
    Save(db, pageId, ip.value, CommentList(CapPrepend(comment, list.value)));
    response := Ok(comment);
  }

  /** The writes of a successful post (src/routes/comments.js:78-84): the
      capped list, the rate-limit flag with its 60-second expiry, and the two
      usage counters. */
  function Saved(st: State, pageId: string, ip: string, list: Value): (r: State)
    requires CountersCountable(st)
    ensures WellFormed(st) ==> WellFormed(r)
  {
    RateLimitKeyShape(ip, pageId);
    ListKeyIsNotCounter(pageId);
    var s1 := Assign(st, ListKey(pageId), list, NoOptions).state;
    var s2 := Assign(s1, RateLimitKey(ip), Str("1"), SetOptions(false, RateLimitSeconds)).state;
    var s3 := Increment(s2, TotalKey).state;
    Increment(s3, CommentsKey).state
  }

  method Save(db: MemoryStore, pageId: string, ip: string, list: Value)
    requires db.Valid() && CountersCountable(db.Snapshot())
    modifies db
    ensures db.Valid()
    ensures db.Snapshot() == Saved(old(db.Snapshot()), pageId, ip, list)
  {
    SavedStepsCountable(db.Snapshot(), pageId, ip, list);
    ghost var s0 := db.Snapshot();
    var listReply := db.Set(ListKey(pageId), list, NoOptions);
    ghost var s1 := db.Snapshot();
    assert s1 == Assign(s0, ListKey(pageId), list, NoOptions).state;
    var limitReply := db.Set(RateLimitKey(ip), Str("1"), SetOptions(false, RateLimitSeconds));
    ghost var s2 := db.Snapshot();
    assert s2 == Assign(s1, RateLimitKey(ip), Str("1"), SetOptions(false, RateLimitSeconds)).state;
    var total := db.Incr(TotalKey);
    assert db.Snapshot() == Increment(s2, TotalKey).state;
    var count := db.Incr(CommentsKey);
  }

  /** The two set writes of `Saved` leave both counters countable, and so
      does the first increment for the second counter. */
  lemma SavedStepsCountable(st: State, pageId: string, ip: string, list: Value)
    requires CountersCountable(st)
    ensures var s1 := Assign(st, ListKey(pageId), list, NoOptions).state;
            var s2 := Assign(s1, RateLimitKey(ip), Str("1"), SetOptions(false, RateLimitSeconds)).state;
            CountersCountable(s2) && Countable(Increment(s2, TotalKey).state, CommentsKey)
  {
    RateLimitKeyShape(ip, pageId);
    ListKeyIsNotCounter(pageId);
    var s1 := Assign(st, ListKey(pageId), list, NoOptions).state;
    var s2 := Assign(s1, RateLimitKey(ip), Str("1"), SetOptions(false, RateLimitSeconds)).state;
    assert Lookup(s2, TotalKey) == Lookup(st, TotalKey) && Lookup(s2, CommentsKey) == Lookup(st, CommentsKey);
    assert TotalKey != CommentsKey by { assert TotalKey[6] == 't' && CommentsKey[6] == 'c'; }
    assert Lookup(Increment(s2, TotalKey).state, CommentsKey) == Lookup(s2, CommentsKey);
  }

  /** What the writes of a successful post do to each key. */
  lemma SavedEffect(st: State, pageId: string, ip: string, list: Value)
    requires CountersCountable(st)
    ensures var r := Saved(st, pageId, ip, list);
            var key := RateLimitKey(ip);
            Lookup(r, ListKey(pageId)) == Some(list) &&
            Lookup(r, key) == Some(Str("1")) &&
            r.timers == st.timers + [Timer(key, RateLimitSeconds)] &&
            CountersCountable(r) &&
            Count(r, TotalKey) == Count(st, TotalKey) + 1 &&
            Count(r, CommentsKey) == Count(st, CommentsKey) + 1 &&
            (forall k :: k != ListKey(pageId) && k != key && k != TotalKey && k != CommentsKey ==>
               Lookup(r, k) == Lookup(st, k))
  {
    RateLimitKeyShape(ip, pageId);
    ListKeyIsNotCounter(pageId);
    assert TotalKey != CommentsKey by { assert TotalKey[6] == 't' && CommentsKey[6] == 'c'; }
    var key := RateLimitKey(ip);
    var s1 := Assign(st, ListKey(pageId), list, NoOptions).state;
    var s2 := Assign(s1, key, Str("1"), SetOptions(false, RateLimitSeconds)).state;
    assert Lookup(s2, TotalKey) == Lookup(st, TotalKey) && Lookup(s2, CommentsKey) == Lookup(st, CommentsKey);
    var s3 := Increment(s2, TotalKey).state;
    var s4 := Increment(s3, CommentsKey).state;
    assert Lookup(s4, TotalKey) == Lookup(s3, TotalKey);
    assert Lookup(s4, key) == Lookup(s2, key);
    assert Lookup(s4, ListKey(pageId)) == Lookup(s1, ListKey(pageId));
  }
}
