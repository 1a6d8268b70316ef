/** The REST handlers of the dashboard backend that carry record logic: the
    tag listing, post create/update, lookbook create/update (with the gallery
    merge) and the weekly-task completion toggle. Each handler is a pure
    function from the record store to a response and the next store; the
    store is the in-memory picture of the relational tables. */
module Backend {
  import opened Common
  import opened Text
  import opened Gallery

  /* ---------------------------------------------------------------------
     Records
     --------------------------------------------------------------------- */

  datatype Post = Post(
    id: int,
    brandId: int,
    title: string,
    content: string,
    status: string,
    tags: Option<string>,
    media: Option<string>,
    scheduledAt: Option<string>,
    platforms: Option<string>)

  datatype Lookbook = Lookbook(
    id: int,
    brandId: int,
    name: string,
    description: Option<string>,
    link: Option<string>,
    imageUrl: Option<string>,
    bannerUrl: Option<string>,
    imagesUrl: Option<string>)

  datatype WeeklyTask = WeeklyTask(id: int, brandId: int, title: string, channel: string, completed: bool)

  /** The tables. `brand` is the id of the first brand row, if any; the
      sequences hold the rows in the order the store returns them; the
      counters are the next auto-increment ids. */
  datatype Store = Store(
    brand: Option<int>,
    posts: seq<Post>,
    lookbooks: seq<Lookbook>,
    tasks: seq<WeeklyTask>,
    nextPostId: int,
    nextLookbookId: int)

  /** Primary keys are unique and below the next auto-increment value. */
  ghost predicate Valid(s: Store) {
    && (forall i, j :: 0 <= i < j < |s.posts| ==> s.posts[i].id != s.posts[j].id)
    && (forall i :: 0 <= i < |s.posts| ==> s.posts[i].id < s.nextPostId)
    && (forall i, j :: 0 <= i < j < |s.lookbooks| ==> s.lookbooks[i].id != s.lookbooks[j].id)
    && (forall i :: 0 <= i < |s.lookbooks| ==> s.lookbooks[i].id < s.nextLookbookId)
    && TaskIdsDistinct(s.tasks)
  }

  /** No two weekly tasks share an id. */
  ghost predicate TaskIdsDistinct(tasks: seq<WeeklyTask>) {
    forall i, j :: 0 <= i < j < |tasks| ==> tasks[i].id != tasks[j].id
  }

  /** A JSON body field: missing (`undefined`), `null`, or a string. */
  datatype Field = Absent | Null | Text(text: string) {
    /** JavaScript truthiness of the field. */
    predicate Truthy() {
      Text? && text != ""
    }
  }

  /** The value a nullable column receives from a body field on create:
      missing and `null` both leave it null. */
  function ColumnValue(f: Field): (r: Option<string>)
    ensures r.Some? <==> f.Text?
    ensures r.Some? ==> r.value == f.text
  {
    match f
    case Text(t) => Some(t)
    case _ => None
  }

  /** The value a nullable column receives on update: a missing field leaves
      the column as it was (the store ignores `undefined`), `null` clears it. */
  function UpdatedColumn(f: Field, existing: Option<string>): (r: Option<string>)
    ensures f.Absent? ==> r == existing
    ensures f.Null? ==> r == None
    ensures f.Text? ==> r == Some(f.text)
  {
    match f
    case Absent => existing
    case Null => None
    case Text(t) => Some(t)
  }

  /* ---------------------------------------------------------------------
     GET /api/posts/tags
     --------------------------------------------------------------------- */

  /** The brand's posts, in store order. */
  function BrandPosts(posts: seq<Post>, brandId: int): (r: seq<Post>)
    ensures forall i :: 0 <= i < |r| ==> r[i] in posts && r[i].brandId == brandId
    ensures forall i :: 0 <= i < |posts| && posts[i].brandId == brandId ==> posts[i] in r
  {
    Filter(posts, (p: Post) => p.brandId == brandId)
  }

  /** `posts.map(p => p.tags).filter(Boolean)`: the non-null, non-empty tag strings. */
  function TruthyTags(posts: seq<Post>): seq<string>
    decreases |posts|
  {
    if |posts| == 0 then [] else TruthyTag(posts[0]) + TruthyTags(posts[1..])
  }

  /** The post's tag string when it is truthy. */
  function TruthyTag(p: Post): seq<string> {
    match p.tags
    case Some(t) => if t != "" then [t] else []
    case None => []
  }

  /** The tag pipeline as written:
      `.join(',').split(',').map(t => t.trim()).filter(Boolean)` and then
      `Array.from(new Set(...))`. */
  function UniqueTags(posts: seq<Post>): (r: seq<string>)
    ensures Distinct(r)
    ensures forall i :: 0 <= i < |r| ==> r[i] != ""
  {
    var pieces := Split(Join(TruthyTags(posts), Comma), Comma);
    var kept := Filter(MapSeq(pieces, Trim), NonEmpty);
    var r := Dedupe(kept);
    assert forall i :: 0 <= i < |r| ==> r[i] in kept;
    r
  }

  predicate IsTrimmed(s: string) {
    Trim(s) == s
  }

  /** Every listed tag is already trimmed. */
  lemma UniqueTagsAreTrimmed(posts: seq<Post>)
    ensures forall i :: 0 <= i < |UniqueTags(posts)| ==> IsTrimmed(UniqueTags(posts)[i])
  {
    var pieces := Split(Join(TruthyTags(posts), Comma), Comma);
    var trimmed := MapSeq(pieces, Trim);
    var kept := Filter(trimmed, NonEmpty);
    var r := Dedupe(kept);
    assert r == UniqueTags(posts);
    forall i | 0 <= i < |r|
      ensures IsTrimmed(r[i])
    {
      assert r[i] in kept;
      var k :| 0 <= k < |kept| && kept[k] == r[i];
      assert kept[k] in trimmed;
      var j :| 0 <= j < |trimmed| && trimmed[j] == kept[k];
      assert trimmed[j] == Trim(pieces[j]);
      TrimIdempotent(pieces[j]);
    }
  }

  /** The tags one post contributes: its comma pieces, trimmed, minus empty
      ones; a null tag string contributes nothing. */
  function PostTags(p: Post): seq<string> {
    match p.tags
    case None => []
    case Some(t) => Filter(MapSeq(Split(t, Comma), Trim), NonEmpty)
  }

  /** All posts' tags, post after post. */
  function AllPostTags(posts: seq<Post>): seq<string>
    decreases |posts|
  {
    if |posts| == 0 then [] else PostTags(posts[0]) + AllPostTags(posts[1..])
  }

  lemma {:induction false} MapSeqAppend<T, U>(a: seq<T>, b: seq<T>, f: T -> U)
    ensures MapSeq(a + b, f) == MapSeq(a, f) + MapSeq(b, f)
  {
  }

  lemma {:induction false} TrimmedPiecesPerPost(posts: seq<Post>)
    ensures Filter(MapSeq(SplitEach(TruthyTags(posts), Comma), Trim), NonEmpty) == AllPostTags(posts)
    decreases |posts|
  {
    if |posts| > 0 {
      TrimmedPiecesPerPost(posts[1..]);
      TrimmedPiecesOfOnePost(posts[0], TruthyTags(posts[1..]));
    }
  }

  /** The pieces one post's tag string adds in front of the others'. */
  lemma TrimmedPiecesOfOnePost(p: Post, rest: seq<string>)
    ensures Filter(MapSeq(SplitEach(TruthyTag(p) + rest, Comma), Trim), NonEmpty)
         == PostTags(p) + Filter(MapSeq(SplitEach(rest, Comma), Trim), NonEmpty)
  {
    var here := TruthyTag(p);
    if here == [] {
      assert here + rest == rest;
      if p.tags.Some? {
        assert Split("", Comma) == [""];
        assert PostTags(p) == [];
      }
    } else {
      var t := here[0];
      assert SplitEach(here + rest, Comma) == Split(t, Comma) + SplitEach(rest, Comma) by {
        assert (here + rest)[1..] == rest;
      }
      MapSeqAppend(Split(t, Comma), SplitEach(rest, Comma), Trim);
      FilterAppend(MapSeq(Split(t, Comma), Trim), MapSeq(SplitEach(rest, Comma), Trim), NonEmpty);
    }
  }

  /** The listing is the de-duplication, in first-occurrence order, of every
      post's own trimmed non-empty comma pieces: joining the tag strings with
      commas before splitting neither merges nor loses pieces. */
  lemma UniqueTagsPerPost(posts: seq<Post>)
    ensures UniqueTags(posts) == Dedupe(AllPostTags(posts))
  {
    var truthy := TruthyTags(posts);
    TrimmedPiecesPerPost(posts);
    if |truthy| == 0 {
      assert Split("", Comma) == [""];
      assert SplitEach(truthy, Comma) == [];
      assert MapSeq([""], Trim) == [""];
      assert Filter([""], NonEmpty) == [];
    } else {
      SplitJoinEach(truthy, Comma);
    }
  }

  /** A tag is listed exactly when some post has a comma piece that trims to it. */
  lemma UniqueTagsMembership(posts: seq<Post>, tag: string)
    ensures tag in UniqueTags(posts) <==>
      tag != "" && exists i :: 0 <= i < |posts| && tag in PostTags(posts[i])
  {
    UniqueTagsPerPost(posts);
    AllPostTagsMembership(posts, tag);
    var all := AllPostTags(posts);
    if tag in all {
      var k := IndexOf(all, tag);
      assert all[k] in Dedupe(all);
    }
    if tag in Dedupe(all) {
      var k :| 0 <= k < |Dedupe(all)| && Dedupe(all)[k] == tag;
    }
  }

  lemma {:induction false} AllPostTagsMembership(posts: seq<Post>, tag: string)
    ensures tag in AllPostTags(posts) <==>
      tag != "" && exists i :: 0 <= i < |posts| && tag in PostTags(posts[i])
    decreases |posts|
  {
    if |posts| > 0 {
      AllPostTagsMembership(posts[1..], tag);
      if tag in PostTags(posts[0]) {
        var p := PostTags(posts[0]);
        var k :| 0 <= k < |p| && p[k] == tag;
      }
      if exists i :: 0 <= i < |posts| && tag in PostTags(posts[i]) {
        var i :| 0 <= i < |posts| && tag in PostTags(posts[i]);
        if i > 0 {
          assert posts[1..][i - 1] == posts[i];
        }
      }
      if exists i :: 0 <= i < |posts[1..]| && tag in PostTags(posts[1..][i]) {
        var i :| 0 <= i < |posts[1..]| && tag in PostTags(posts[1..][i]);
        assert posts[i + 1] == posts[1..][i];
      }
    }
  }

  /** `GET /api/posts/tags`. */
  function ListTags(s: Store): (r: Response<seq<string>>)
    ensures s.brand.None? ==> r == Error(404, "No brand")
    ensures s.brand.Some? ==>
              r == Reply(200, UniqueTags(BrandPosts(s.posts, s.brand.value)))
  {
    match s.brand
    case None => Error(404, "No brand")
    case Some(b) => Reply(200, UniqueTags(BrandPosts(s.posts, b)))
  }

  /* ---------------------------------------------------------------------
     POST /api/posts and PUT /api/posts/:id
     --------------------------------------------------------------------- */

  datatype PostBody = PostBody(
    title: Field,
    content: Field,
    status: Field,
    tags: Field,
    media: Field,
    scheduledAt: Field,
    platforms: Field)

  /** The outcome of a handler: the reply and the store after it. A reply of
      `Unanswered` means the store rejected the write and the handler, which
      has no catch, sent nothing. */
  datatype Outcome<T> = Outcome(response: Reply<T>, store: Store)

  datatype Reply<T> = Sent(r: Response<T>) | Unanswered

  const MissingTitleOrContent: string := "Missing title or content"

  /** `POST /api/posts`. */
  function CreatePost(s: Store, body: PostBody): (o: Outcome<Post>)
    ensures s.brand.None? ==> o == Outcome(Sent(Error(404, "No brand")), s)
    ensures s.brand.Some? && !(body.title.Truthy() && body.content.Truthy()) ==>
      o == Outcome(Sent(Error(400, MissingTitleOrContent)), s)
    ensures o.response.Sent? && o.response.r.IsOk() ==>
      && body.title.Truthy() && body.content.Truthy()
      && o.response.r.status == 201
      && o.store.posts == s.posts + [o.response.r.body]
      && o.store.lookbooks == s.lookbooks && o.store.tasks == s.tasks
      && o.response.r.body.id == s.nextPostId
      && o.response.r.body.title == body.title.text
      && o.response.r.body.content == body.content.text
      && o.response.r.body.status == (if body.status.Text? then body.status.text else "DRAFT")
      && o.response.r.body.scheduledAt == (if body.scheduledAt.Truthy() then Some(body.scheduledAt.text) else None)
    ensures o.response.Sent? && o.response.r.IsOk() ==>
      && s.brand.Some? && o.response.r.body.brandId == s.brand.value
      && o.response.r.body.tags == ColumnValue(body.tags)
      && o.response.r.body.media == ColumnValue(body.media)
      && o.response.r.body.platforms == ColumnValue(body.platforms)
    ensures o.response.Unanswered? <==> s.brand.Some? && body.title.Truthy() && body.content.Truthy() && body.status.Null?
    ensures !o.response.Sent? || !o.response.r.IsOk() ==> o.store == s
  {
    match s.brand
    case None => Outcome(Sent(Error(404, "No brand")), s)
    case Some(b) =>
      if !(body.title.Truthy() && body.content.Truthy()) then
        Outcome(Sent(Error(400, MissingTitleOrContent)), s)
      else if body.status.Null? then
        // the status column is required: the write is rejected
        Outcome(Unanswered, s)
      else
        var post := Post(
          s.nextPostId, b, body.title.text, body.content.text,
          if body.status.Absent? then "DRAFT" else body.status.text,
          ColumnValue(body.tags), ColumnValue(body.media),
          if body.scheduledAt.Truthy() then Some(body.scheduledAt.text) else None,
          ColumnValue(body.platforms));
        Outcome(Sent(Reply(201, post)),
                s.(posts := s.posts + [post], nextPostId := s.nextPostId + 1))
  }

  function PostKey(p: Post): int { p.id }

  /** The first post with the given id. */
  function FindPost(posts: seq<Post>, id: int): Option<Post> {
    FindBy(posts, PostKey, id)
  }

  /** Every row with `p`'s id replaced by `p`. */
  function ReplacePost(posts: seq<Post>, p: Post): (r: seq<Post>)
    ensures |r| == |posts|
    ensures forall i :: 0 <= i < |posts| ==> r[i] == if posts[i].id == p.id then p else posts[i]
  {
    MapSeq(posts, (q: Post) => if q.id == p.id then p else q)
  }

  /** The row written by an update: title and content from the body, status
      kept unless a non-empty one is sent, the schedule cleared unless a
      non-empty one is sent, and the other columns following the body. */
  function UpdatedPost(existing: Post, body: PostBody): (p: Post)
    requires body.title.Text? && body.content.Text?
    ensures p.id == existing.id && p.brandId == existing.brandId
    ensures p.status == (if body.status.Truthy() then body.status.text else existing.status)
    ensures p.scheduledAt == (if body.scheduledAt.Truthy() then Some(body.scheduledAt.text) else None)
    ensures p.title == body.title.text && p.content == body.content.text
    ensures p.tags == UpdatedColumn(body.tags, existing.tags)
    ensures p.media == UpdatedColumn(body.media, existing.media)
    ensures p.platforms == UpdatedColumn(body.platforms, existing.platforms)
  {
    existing.(
      title := body.title.text,
      content := body.content.text,
      status := if body.status.Truthy() then body.status.text else existing.status,
      tags := UpdatedColumn(body.tags, existing.tags),
      media := UpdatedColumn(body.media, existing.media),
      scheduledAt := if body.scheduledAt.Truthy() then Some(body.scheduledAt.text) else None,
      platforms := UpdatedColumn(body.platforms, existing.platforms))
  }

  /** `PUT /api/posts/:id`: validation comes before the lookup. */
  function UpdatePost(s: Store, id: int, body: PostBody): (o: Outcome<Post>)
    ensures !(body.title.Truthy() && body.content.Truthy()) ==>
      o == Outcome(Sent(Error(400, MissingTitleOrContent)), s)
    ensures body.title.Truthy() && body.content.Truthy() && FindPost(s.posts, id).None? ==>
      o == Outcome(Sent(Error(404, "Post not found")), s)
    ensures o.response.Sent? && o.response.r.Reply? ==>
      && FindPost(s.posts, id).Some?
      && o.response.r.status == 200
      && o.response.r.body == UpdatedPost(FindPost(s.posts, id).value, body)
      && o.store == s.(posts := ReplacePost(s.posts, o.response.r.body))
    ensures o.response.Sent?
  {
    if !(body.title.Truthy() && body.content.Truthy()) then
      Outcome(Sent(Error(400, MissingTitleOrContent)), s)
    else
      match FindPost(s.posts, id)
      case None => Outcome(Sent(Error(404, "Post not found")), s)
      case Some(existing) =>
        var p := UpdatedPost(existing, body);
        Outcome(Sent(Reply(200, p)), s.(posts := ReplacePost(s.posts, p)))
  }

  /** An update touches only the row with the requested id. */
  lemma UpdatePostOnlyTouchesItsRow(s: Store, id: int, body: PostBody, i: int)
    requires Valid(s)
    requires 0 <= i < |s.posts| && s.posts[i].id != id
    ensures |UpdatePost(s, id, body).store.posts| == |s.posts|
    ensures UpdatePost(s, id, body).store.posts[i] == s.posts[i]
  {
  }

  /* ---------------------------------------------------------------------
     Uploads
     --------------------------------------------------------------------- */

  /** Public URL prefix of an uploaded file, with the default port 4000. */
  const UploadBase: string := "http://localhost:4000/uploads/"

  function UploadUrl(filename: string): (u: string)
    ensures StartsWith(u, UploadBase)
    ensures u[|UploadBase|..] == filename
    ensures IsEntry(u)
    ensures Comma !in filename ==> Comma !in u
  {
    var u := UploadBase + filename;
    assert u[0] == 'h';
    assert forall i :: 0 <= i < |UploadBase| ==> UploadBase[i] != Comma;
    assert forall i :: 0 <= i < |u| ==> u[i] == if i < |UploadBase| then UploadBase[i] else filename[i - |UploadBase|];
    u
  }

  /** The stored names of the files of one multipart request. */
  datatype Uploads = Uploads(image: Option<string>, banner: Option<string>, gallery: seq<string>)

  /** The uploaded gallery as one comma-joined string of URLs. */
  function NewGalleryString(gallery: seq<string>): string {
    Join(MapSeq(gallery, UploadUrl), Comma)
  }

  /** Uploaded gallery URLs read back as entries, for comma-free file names. */
  lemma NewGalleryEntries(gallery: seq<string>)
    requires forall i :: 0 <= i < |gallery| ==> Comma !in gallery[i]
    ensures Entries(NewGalleryString(gallery)) == MapSeq(gallery, UploadUrl)
  {
    var urls := MapSeq(gallery, UploadUrl);
    EntriesOfJoin(urls);
  }

  /** No stored file name contains a comma. */
  predicate CommaFreeNames(names: seq<string>) {
    forall i :: 0 <= i < |names| ==> Comma !in names[i]
  }

  lemma NewGalleryEntriesOfCommaFree(gallery: seq<string>)
    ensures CommaFreeNames(gallery) ==> Entries(NewGalleryString(gallery)) == MapSeq(gallery, UploadUrl)
  {
    if CommaFreeNames(gallery) {
      NewGalleryEntries(gallery);
    }
  }

  /** At least one upload gives a non-empty gallery string. */
  lemma NewGalleryNonEmpty(gallery: seq<string>)
    requires |gallery| > 0
    ensures NewGalleryString(gallery) != ""
  {
    var urls := MapSeq(gallery, UploadUrl);
    assert urls[0] == UploadUrl(gallery[0]);
    assert StartsWith(Join(urls, Comma), urls[0]) by {
      if |urls| > 1 {
        assert Join(urls, Comma) == urls[0] + ([Comma] + Join(urls[1..], Comma));
      }
    }
  }

  /* ---------------------------------------------------------------------
     POST /api/lookbooks
     --------------------------------------------------------------------- */

  /** Multipart text fields: a field not sent is `None`. */
  datatype LookbookBody = LookbookBody(
    name: Option<string>,
    description: Option<string>,
    link: Option<string>,
    removedGalleryImages: Removal)

  predicate TruthyText(f: Option<string>) {
    f.Some? && f.value != ""
  }

  function OrNull(f: Option<string>): (r: Option<string>)
    ensures r.Some? <==> TruthyText(f)
    ensures r.Some? ==> r == f
  {
    if TruthyText(f) then f else None
  }

  /** `POST /api/lookbooks`. */
  function CreateLookbook(s: Store, body: LookbookBody, files: Uploads): (o: Outcome<Lookbook>)
    ensures s.brand.None? ==> o == Outcome(Sent(Error(404, "No brand")), s)
    ensures s.brand.Some? && !TruthyText(body.name) ==> o == Outcome(Sent(Error(400, "Name is required")), s)
    ensures o.response.Sent?
    ensures o.response.r.Reply? ==>
      && TruthyText(body.name)
      && o.response.r.status == 201
      && o.store.lookbooks == s.lookbooks + [o.response.r.body]
      && o.response.r.body.id == s.nextLookbookId
      && o.response.r.body.name == body.name.value
      && (o.response.r.body.imageUrl.Some? <==> files.image.Some?)
      && (o.response.r.body.bannerUrl.Some? <==> files.banner.Some?)
      && (o.response.r.body.imagesUrl.Some? <==> |files.gallery| > 0)
      && o.response.r.body.description == OrNull(body.description)
      && o.response.r.body.link == OrNull(body.link)
    ensures o.response.r.Reply? ==>
      && s.brand.Some? && o.response.r.body.brandId == s.brand.value
      && o.store == s.(lookbooks := s.lookbooks + [o.response.r.body], nextLookbookId := s.nextLookbookId + 1)
      && (files.image.Some? ==> o.response.r.body.imageUrl == Some(UploadUrl(files.image.value)))
      && (files.banner.Some? ==> o.response.r.body.bannerUrl == Some(UploadUrl(files.banner.value)))
      && (|files.gallery| > 0 ==> o.response.r.body.imagesUrl == Some(NewGalleryString(files.gallery)))
    ensures o.response.r.Reply? && |files.gallery| > 0 && CommaFreeNames(files.gallery) ==>
      Entries(o.response.r.body.imagesUrl.value) == MapSeq(files.gallery, UploadUrl)
  {
    NewGalleryEntriesOfCommaFree(files.gallery);
    match s.brand
    case None => Outcome(Sent(Error(404, "No brand")), s)
    case Some(b) =>
      if !TruthyText(body.name) then Outcome(Sent(Error(400, "Name is required")), s)
      else
        var lb := Lookbook(
          s.nextLookbookId, b, body.name.value,
          OrNull(body.description), OrNull(body.link),
          if files.image.Some? then Some(UploadUrl(files.image.value)) else None,
          if files.banner.Some? then Some(UploadUrl(files.banner.value)) else None,
          if |files.gallery| > 0 then Some(NewGalleryString(files.gallery)) else None);
        Outcome(Sent(Reply(201, lb)),
                s.(lookbooks := s.lookbooks + [lb], nextLookbookId := s.nextLookbookId + 1))
  }

  /* ---------------------------------------------------------------------
     PUT /api/lookbooks/:id — the gallery merge
     --------------------------------------------------------------------- */

  /** What `JSON.parse` returns; numbers, booleans and objects are `JOther`. */
  datatype Json = JArray(items: seq<Json>) | JString(s: string) | JNull | JOther

  /** The `removedGalleryImages` field: not sent or empty (falsy), not valid
      JSON (`JSON.parse` throws), or the parsed value. */
  datatype Removal = NotSent | Unparseable | Parsed(json: Json)

  /** `removedList.includes(url)` where it is defined: array membership for an
      array, substring search for a string. */
  predicate ListedForRemoval(list: Json, url: string)
    requires list.JArray? || list.JString?
  {
    match list
    case JArray(items) => JString(url) in items
    case JString(text) => Includes(text, url)
  }

  /** The gallery string after the removal step. When the parsed value has no
      `includes` method (null, a number, an object) the call throws as soon as
      there is one current image, and the catch keeps the gallery as it was. */
  function RemoveListed(gallery: string, removal: Removal): (r: string)
    ensures removal.NotSent? || removal.Unparseable? ==> r == gallery
    ensures removal.Parsed? && (removal.json.JArray? || removal.json.JString?) ==>
      Entries(r) == Filter(Entries(gallery), (u: string) => !ListedForRemoval(removal.json, u))
    ensures removal.Parsed? && !(removal.json.JArray? || removal.json.JString?) && Entries(gallery) != [] ==>
      r == gallery
    ensures removal.Parsed? && Entries(gallery) == [] ==> r == ""
  {
    match removal
    case NotSent => gallery
    case Unparseable => gallery
    case Parsed(list) =>
      var current := Entries(gallery);
      if |current| == 0 then
        EntriesOfEmpty();
        ""
      else if list.JArray? || list.JString? then
        var kept := Filter(current, (u: string) => !ListedForRemoval(list, u));
        EntriesOfJoin(kept);
        Join(kept, Comma)
      else gallery
  }

  /** The gallery string after appending uploaded images behind the survivors. */
  function AppendUploads(gallery: string, uploads: seq<string>): (r: string)
    ensures |uploads| == 0 ==> r == gallery
    ensures Entries(r) == Entries(gallery) + Entries(NewGalleryString(uploads))
    ensures |uploads| > 0 ==> r != ""
  {
    if |uploads| == 0 then
      EntriesOfEmpty();
      assert Entries(gallery) + [] == Entries(gallery);
      gallery
    else
      var added := NewGalleryString(uploads);
      if gallery != "" then
        EntriesAppend(gallery, added);
        gallery + [Comma] + added
      else
        EntriesOfEmpty();
        NewGalleryNonEmpty(uploads);
        added
  }

  /** The row written by a lookbook update. */
  function UpdatedLookbook(existing: Lookbook, body: LookbookBody, files: Uploads): (lb: Lookbook)
    ensures lb.id == existing.id && lb.brandId == existing.brandId
    ensures lb.name == if TruthyText(body.name) then body.name.value else existing.name
    ensures lb.description == if body.description.Some? then body.description else existing.description
    ensures lb.link == if body.link.Some? then body.link else existing.link
    ensures files.image.None? ==> lb.imageUrl == existing.imageUrl
    ensures files.image.Some? ==> lb.imageUrl == Some(UploadUrl(files.image.value))
    ensures files.banner.None? ==> lb.bannerUrl == existing.bannerUrl
    ensures files.banner.Some? ==> lb.bannerUrl == Some(UploadUrl(files.banner.value))
    ensures lb.imagesUrl.None? || lb.imagesUrl.value != ""
    ensures Entries(lb.imagesUrl.GetOr("")) ==
              Entries(RemoveListed(existing.imagesUrl.GetOr(""), body.removedGalleryImages))
              + Entries(NewGalleryString(files.gallery))
    ensures |files.gallery| > 0 ==> lb.imagesUrl.Some?
  {
    var merged := AppendUploads(RemoveListed(existing.imagesUrl.GetOr(""), body.removedGalleryImages), files.gallery);
    Lookbook(
      existing.id, existing.brandId,
      if TruthyText(body.name) then body.name.value else existing.name,
      if body.description.Some? then body.description else existing.description,
      if body.link.Some? then body.link else existing.link,
      if files.image.Some? then Some(UploadUrl(files.image.value)) else existing.imageUrl,
      if files.banner.Some? then Some(UploadUrl(files.banner.value)) else existing.bannerUrl,
      if merged == "" then None else Some(merged))
  }

  function LookbookKey(lb: Lookbook): int { lb.id }

  function FindLookbook(lookbooks: seq<Lookbook>, id: int): Option<Lookbook> {
    FindBy(lookbooks, LookbookKey, id)
  }

  function ReplaceLookbook(lookbooks: seq<Lookbook>, lb: Lookbook): (r: seq<Lookbook>)
    ensures |r| == |lookbooks|
    ensures forall i :: 0 <= i < |lookbooks| ==> r[i] == if lookbooks[i].id == lb.id then lb else lookbooks[i]
  {
    MapSeq(lookbooks, (q: Lookbook) => if q.id == lb.id then lb else q)
  }

  /** `PUT /api/lookbooks/:id`. */
  function UpdateLookbook(s: Store, id: int, body: LookbookBody, files: Uploads): (o: Outcome<Lookbook>)
    ensures FindLookbook(s.lookbooks, id).None? ==> o == Outcome(Sent(Error(404, "Lookbook not found")), s)
    ensures FindLookbook(s.lookbooks, id).Some? ==>
      && o.response == Sent(Reply(200, UpdatedLookbook(FindLookbook(s.lookbooks, id).value, body, files)))
      && o.store == s.(lookbooks := ReplaceLookbook(s.lookbooks, o.response.r.body))
  {
    match FindLookbook(s.lookbooks, id)
    case None => Outcome(Sent(Error(404, "Lookbook not found")), s)
    case Some(existing) =>
      var lb := UpdatedLookbook(existing, body, files);
      Outcome(Sent(Reply(200, lb)), s.(lookbooks := ReplaceLookbook(s.lookbooks, lb)))
  }

  /** With a parsed removal array: no listed URL survives, the survivors keep
      their order, and new uploads follow all of them. */
  lemma GalleryMergeWithRemovalList(existing: Lookbook, body: LookbookBody, files: Uploads)
    requires body.removedGalleryImages.Parsed? && body.removedGalleryImages.json.JArray?
    requires forall i :: 0 <= i < |files.gallery| ==> Comma !in files.gallery[i]
    ensures var stored := UpdatedLookbook(existing, body, files).imagesUrl.GetOr("");
            var before := Entries(existing.imagesUrl.GetOr(""));
            var items := body.removedGalleryImages.json.items;
            var survivors := Filter(before, (u: string) => JString(u) !in items);
            && Entries(stored) == survivors + MapSeq(files.gallery, UploadUrl)
            && IsSubsequence(survivors, before)
            && (forall i :: 0 <= i < |survivors| ==> JString(survivors[i]) !in items)
  {
    var list := body.removedGalleryImages.json;
    var before := Entries(existing.imagesUrl.GetOr(""));
    var removed := RemoveListed(existing.imagesUrl.GetOr(""), body.removedGalleryImages);
    var merged := AppendUploads(removed, files.gallery);
    var survivors := Filter(before, (u: string) => JString(u) !in list.items);
    FilterSameTest(before, (u: string) => !ListedForRemoval(list, u), (u: string) => JString(u) !in list.items);
    FilterIsSubsequence(before, (u: string) => JString(u) !in list.items);
    if merged == "" {
      EntriesOfEmpty();
    }
    if |files.gallery| > 0 {
      NewGalleryEntries(files.gallery);
    }
  }

  /** A removal list that is not sent, or not valid JSON, leaves the stored
      gallery string as it was (when nothing is uploaded). */
  lemma GalleryKeptWithoutRemovalList(existing: Lookbook, body: LookbookBody)
    requires body.removedGalleryImages.NotSent? || body.removedGalleryImages.Unparseable?
    ensures UpdatedLookbook(existing, body, Uploads(None, None, [])).imagesUrl ==
      if existing.imagesUrl == Some("") then None else existing.imagesUrl
  {
  }

  /* ---------------------------------------------------------------------
     Store invariant
     --------------------------------------------------------------------- */

  /** Creating a post keeps primary keys unique and below the counter. */
  lemma CreatePostPreservesValid(s: Store, body: PostBody)
    requires Valid(s)
    ensures Valid(CreatePost(s, body).store)
  {
  }

  /** Updating a post keeps every id where it was. */
  lemma UpdatePostPreservesValid(s: Store, id: int, body: PostBody)
    requires Valid(s)
    ensures Valid(UpdatePost(s, id, body).store)
  {
    var t := UpdatePost(s, id, body).store;
    assert forall i :: 0 <= i < |s.posts| ==> t.posts[i].id == s.posts[i].id;
  }

  /** Creating a lookbook keeps primary keys unique and below the counter. */
  lemma CreateLookbookPreservesValid(s: Store, body: LookbookBody, files: Uploads)
    requires Valid(s)
    ensures Valid(CreateLookbook(s, body, files).store)
  {
  }

  /** Updating a lookbook keeps every id where it was. */
  lemma UpdateLookbookPreservesValid(s: Store, id: int, body: LookbookBody, files: Uploads)
    requires Valid(s)
    ensures Valid(UpdateLookbook(s, id, body, files).store)
  {
    var t := UpdateLookbook(s, id, body, files).store;
    assert forall i :: 0 <= i < |s.lookbooks| ==> t.lookbooks[i].id == s.lookbooks[i].id;
  }

  /* ---------------------------------------------------------------------
     GET /api/dashboard/weekly-plan
     --------------------------------------------------------------------- */

  /** The test "the task belongs to brand `b`". */
  function OfBrand(b: int): WeeklyTask -> bool {
    (t: WeeklyTask) => t.brandId == b
  }

  /** `GET /api/dashboard/weekly-plan`: 404 without a brand, otherwise the
      first brand's tasks in store order. */
  function WeeklyPlanList(s: Store): (r: Response<seq<WeeklyTask>>)
    ensures s.brand.None? ==> r == Error(404, "No brand")
    ensures s.brand.Some? ==> r.Reply? && r.status == 200
    ensures r.Reply? ==> s.brand.Some? && IsSubsequence(r.body, s.tasks)
    ensures r.Reply? ==> forall i :: 0 <= i < |r.body| ==> r.body[i].brandId == s.brand.value
    ensures r.Reply? ==> forall i :: 0 <= i < |s.tasks| && s.tasks[i].brandId == s.brand.value ==> s.tasks[i] in r.body
  {
    match s.brand
    case None => Error(404, "No brand")
    case Some(b) =>
      FilterIsSubsequence(s.tasks, OfBrand(b));
      Reply(200, Filter(s.tasks, OfBrand(b)))
  }

  /* ---------------------------------------------------------------------
     PATCH /api/dashboard/weekly-plan/:id
     --------------------------------------------------------------------- */

  function TaskKey(t: WeeklyTask): int { t.id }

  function FindTask(tasks: seq<WeeklyTask>, id: int): Option<WeeklyTask> {
    FindBy(tasks, TaskKey, id)
  }

  /** Every row with `u`'s id replaced by `u`. */
  function ReplaceTask(tasks: seq<WeeklyTask>, u: WeeklyTask): (r: seq<WeeklyTask>)
    ensures |r| == |tasks|
    ensures forall i :: 0 <= i < |tasks| ==> r[i] == if tasks[i].id == u.id then u else tasks[i]
    decreases |tasks|
  {
    if |tasks| == 0 then []
    else [if tasks[0].id == u.id then u else tasks[0]] + ReplaceTask(tasks[1..], u)
  }

  /** `PATCH /api/dashboard/weekly-plan/:id`: flip `completed` on the task. */
  function ToggleTask(s: Store, id: int): (o: Outcome<WeeklyTask>)
    ensures FindTask(s.tasks, id).None? ==> o == Outcome(Sent(Error(404, "Task not found")), s)
    ensures FindTask(s.tasks, id).Some? ==>
      var t := FindTask(s.tasks, id).value;
      && o.response == Sent(Reply(200, t.(completed := !t.completed)))
      && o.store == s.(tasks := ReplaceTask(s.tasks, t.(completed := !t.completed)))
  {
    match FindTask(s.tasks, id)
    case None => Outcome(Sent(Error(404, "Task not found")), s)
    case Some(t) =>
      var u := t.(completed := !t.completed);
      Outcome(Sent(Reply(200, u)), s.(tasks := ReplaceTask(s.tasks, u)))
  }

  /** The toggle flips the matching task and leaves every other row alone. */
  lemma ToggleTaskEffect(s: Store, id: int, i: int)
    requires TaskIdsDistinct(s.tasks)
    requires 0 <= i < |s.tasks|
    ensures |ToggleTask(s, id).store.tasks| == |s.tasks|
    ensures ToggleTask(s, id).store.tasks[i] ==
      if s.tasks[i].id == id then s.tasks[i].(completed := !s.tasks[i].completed) else s.tasks[i]
  {
    if s.tasks[i].id == id {
      FindByAt(s.tasks, TaskKey, i);
    }
  }

  /** Toggling the same task twice restores the store. */
  lemma ToggleTaskTwice(s: Store, id: int)
    requires TaskIdsDistinct(s.tasks)
    ensures ToggleTask(ToggleTask(s, id).store, id).store == s
  {
    var s1 := ToggleTask(s, id).store;
    ToggleKeepsTaskIds(s, id);
    var s2 := ToggleTask(s1, id).store;
    assert s1.(tasks := s.tasks) == s && s2.(tasks := s.tasks) == s;
    forall i | 0 <= i < |s.tasks|
      ensures s2.tasks[i] == s.tasks[i]
    {
      ToggleTaskEffect(s, id, i);
      ToggleTaskEffect(s1, id, i);
    }
    assert s2.tasks == s.tasks;
  }

  /** The toggle keeps every task's id, so distinct ids stay distinct. */
  lemma ToggleKeepsTaskIds(s: Store, id: int)
    requires TaskIdsDistinct(s.tasks)
    ensures |ToggleTask(s, id).store.tasks| == |s.tasks|
    ensures forall i :: 0 <= i < |s.tasks| ==> ToggleTask(s, id).store.tasks[i].id == s.tasks[i].id
    ensures TaskIdsDistinct(ToggleTask(s, id).store.tasks)
  {
    var t := ToggleTask(s, id).store;
    forall i | 0 <= i < |s.tasks|
      ensures t.tasks[i].id == s.tasks[i].id
    {
      ToggleTaskEffect(s, id, i);
    }
  }

  /** The toggle keeps the store invariant. */
  lemma ToggleTaskPreservesValid(s: Store, id: int)
    requires Valid(s)
    ensures Valid(ToggleTask(s, id).store)
  {
    ToggleKeepsTaskIds(s, id);
  }
}
