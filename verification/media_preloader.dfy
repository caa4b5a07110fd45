/**
 * The media preloader of the web client (`src/utils/mediaPreloader.ts`): a
 * registry of books keyed by id, a queue of ids still to preload, and per
 * book three readiness flags (video head, quote audio, full audio) from which
 * `loaded` is derived.
 *
 * The network is the parameter `fetch`, giving for each audio URL what
 * `fetchAndCache` followed by `blob()` and `URL.createObjectURL` produced.
 * The batch delay and the concurrency inside a batch are not modelled: the
 * items of a batch are preloaded one after the other.
 */
module MediaPreloader {
  import opened Common
  import opened Text

  const MAX_CONCURRENT := 2

  datatype Book = Book(id: int, title: string, videoUrl: string, audioUrl: string, quoteAudioUrl: string)

  /** A registry entry: the book's own fields, the object URLs of fetched audio, and the flags. */
  datatype Item = Item(
    book: Book,
    audioObjectUrl: Option<string>,
    quoteAudioObjectUrl: Option<string>,
    loaded: bool,
    videoReady: bool,
    audioReady: bool,
    quoteAudioReady: bool)

  datatype Preloader = Preloader(items: map<int, Item>, queue: seq<int>, preloading: bool)

  /** What fetching one audio URL came to. */
  datatype Fetched =
    | NoResponse            // `fetchAndCache` returned null
    | Blob(objectUrl: string)
    | Failure               // reading the body threw, which aborts the item silently

  /** Every entry sits under its book's id, and a loaded entry has all three flags set. */
  predicate Consistent(items: map<int, Item>) {
    forall id | id in items :: items[id].book.id == id && (items[id].loaded ==> AllReady(items[id]))
  }

  predicate AllReady(it: Item) {
    it.videoReady && it.quoteAudioReady && it.audioReady
  }

  function Fresh(b: Book): (it: Item)
    ensures it.book == b && !it.loaded && !it.videoReady && !it.audioReady && !it.quoteAudioReady
    ensures it.audioObjectUrl.None? && it.quoteAudioObjectUrl.None?
  {
    Item(b, None, None, false, false, false, false)
  }

  // ---------------------------------------------------------------- register

  function RegisterOne(p: Preloader, b: Book): Preloader {
    if b.id in p.items then p
    else Preloader(p.items[b.id := Fresh(b)], p.queue + [b.id], p.preloading)
  }

  function BookIds(books: seq<Book>): set<int> {
    set i | 0 <= i < |books| :: books[i].id
  }

  /** The ids of `books` not in `known`, each once, in the order of their first appearance. */
  function NewIds(known: set<int>, books: seq<Book>): (ids: seq<int>)
    ensures forall i | 0 <= i < |ids| :: ids[i] !in known
    ensures forall i, j | 0 <= i < j < |ids| :: ids[i] != ids[j]
    decreases |books|
  {
    if books == [] then []
    else if books[0].id in known then NewIds(known, books[1..])
    else [books[0].id] + NewIds(known + {books[0].id}, books[1..])
  }

  /** `b` is the first book in `books` carrying its id. */
  predicate FirstWithId(books: seq<Book>, b: Book) {
    exists i :: 0 <= i < |books| && books[i] == b && forall j :: 0 <= j < i ==> books[j].id != b.id
  }

  /**
   * `r`'s queue is `p`'s queue followed by the ids `r` knows and `p` did
   * not, each exactly once.
   */
  predicate QueuedOnce(p: Preloader, r: Preloader) {
    && |p.queue| <= |r.queue| && r.queue[..|p.queue|] == p.queue
    && (forall i | |p.queue| <= i < |r.queue| :: r.queue[i] in r.items && r.queue[i] !in p.items)
    && (forall i, j | |p.queue| <= i < j < |r.queue| :: r.queue[i] != r.queue[j])
    && (forall id | id in r.items && id !in p.items :: id in r.queue[|p.queue|..])
  }

  lemma QueuedOnceStep(p: Preloader, b: Book, r: Preloader)
    requires QueuedOnce(RegisterOne(p, b), r)
    requires RegisterOne(p, b).items.Keys <= r.items.Keys
    ensures QueuedOnce(p, r)
  {
    var p1 := RegisterOne(p, b);
    assert r.queue[..|p1.queue|][..|p.queue|] == r.queue[..|p.queue|];
    forall i | |p.queue| <= i < |r.queue|
      ensures r.queue[i] in r.items && r.queue[i] !in p.items
    {
      if i < |p1.queue| {
        assert r.queue[i] == p1.queue[i] == b.id;
      }
    }
    forall i, j | |p.queue| <= i < j < |r.queue|
      ensures r.queue[i] != r.queue[j]
    {
      if i < |p1.queue| {
        assert r.queue[i] == p1.queue[i] == b.id;
        assert r.queue[j] !in p1.items;
      }
    }
    forall id | id in r.items && id !in p.items
      ensures id in r.queue[|p.queue|..]
    {
      if id in p1.items {
        assert p1.queue[|p.queue|] == id;
        assert r.queue[|p.queue|] == id;
      } else {
        var k :| |p1.queue| <= k < |r.queue| && r.queue[k] == id by {
          assert id in r.queue[|p1.queue|..];
        }
        assert r.queue[|p.queue|..][k - |p.queue|] == id;
      }
    }
  }

  lemma BookIdsCons(books: seq<Book>)
    requires books != []
    ensures BookIds(books) == {books[0].id} + BookIds(books[1..])
  {
    forall x | x in BookIds(books) ensures x in {books[0].id} + BookIds(books[1..]) {
      var i :| 0 <= i < |books| && books[i].id == x;
      if i > 0 { assert books[1..][i - 1].id == x; }
    }
    forall x | x in BookIds(books[1..]) ensures x in BookIds(books) {
      var i :| 0 <= i < |books[1..]| && books[1..][i].id == x;
      assert books[i + 1].id == x;
    }
  }

  /** Each entry `r` gained over `p` is the fresh entry of the first book with its id. */
  ghost predicate FreshFromFirst(p: Preloader, r: Preloader, books: seq<Book>) {
    forall id | id in r.items && id !in p.items :: exists b :: FirstWithId(books, b) && b.id == id && r.items[id] == Fresh(b)
  }

  lemma FreshFromFirstStep(p: Preloader, books: seq<Book>, r: Preloader)
    requires books != []
    requires FreshFromFirst(RegisterOne(p, books[0]), r, books[1..])
    requires forall id | id in RegisterOne(p, books[0]).items :: id in r.items && r.items[id] == RegisterOne(p, books[0]).items[id]
    ensures FreshFromFirst(p, r, books)
  {
    forall id | id in r.items && id !in p.items
      ensures exists b :: FirstWithId(books, b) && b.id == id && r.items[id] == Fresh(b)
    {
      if id == books[0].id {
        assert FirstWithId(books, books[0]);
      } else {
        var b :| FirstWithId(books[1..], b) && b.id == id && r.items[id] == Fresh(b);
        var i :| 0 <= i < |books[1..]| && books[1..][i] == b && forall j :: 0 <= j < i ==> books[1..][j].id != b.id;
        assert books[i + 1] == b;
        assert FirstWithId(books, b);
      }
    }
  }

  /**
   * `register(books)`: each book whose id is not yet known gets a fresh entry
   * (the first book with that id wins) and its id is queued once, in list
   * order; entries already known are left alone.
   */
  function Register(p: Preloader, books: seq<Book>): (r: Preloader)
    ensures r.items.Keys == p.items.Keys + BookIds(books)
    ensures forall id | id in p.items :: r.items[id] == p.items[id]
    ensures FreshFromFirst(p, r, books)
    ensures QueuedOnce(p, r)
    ensures r.queue == p.queue + NewIds(p.items.Keys, books)
    ensures r.preloading == p.preloading
    decreases |books|
  {
    if books == [] then p
    else
      var p1 := RegisterOne(p, books[0]);
      var r := Register(p1, books[1..]);
      RegisterStep(p, books, r);
      QueueOrderStep(p, books, r.queue);
      r
  }

  /** The inductive step of `Register`'s contract: from the registry after the first book to the one before it. */
  lemma RegisterStep(p: Preloader, books: seq<Book>, r: Preloader)
    requires books != []
    requires var p1 := RegisterOne(p, books[0]);
             && r.items.Keys == p1.items.Keys + BookIds(books[1..])
             && (forall id | id in p1.items :: r.items[id] == p1.items[id])
             && FreshFromFirst(p1, r, books[1..])
             && QueuedOnce(p1, r)
             && r.preloading == p1.preloading
    ensures r.items.Keys == p.items.Keys + BookIds(books)
    ensures forall id | id in p.items :: r.items[id] == p.items[id]
    ensures FreshFromFirst(p, r, books)
    ensures QueuedOnce(p, r)
    ensures r.preloading == p.preloading
  {
    var p1 := RegisterOne(p, books[0]);
    assert p1.items.Keys == p.items.Keys + {books[0].id};
    BookIdsCons(books);
    assert r.items.Keys == p.items.Keys + ({books[0].id} + BookIds(books[1..]));
    FreshFromFirstStep(p, books, r);
    QueuedOnceStep(p, books[0], r);
  }

  /** The inductive step of `Register`'s queue order. */
  lemma QueueOrderStep(p: Preloader, books: seq<Book>, queue: seq<int>)
    requires books != []
    requires var p1 := RegisterOne(p, books[0]);
             queue == p1.queue + NewIds(p1.items.Keys, books[1..])
    ensures queue == p.queue + NewIds(p.items.Keys, books)
  {
    var id := books[0].id;
    if id !in p.items {
      var p1 := RegisterOne(p, books[0]);
      assert p1.items.Keys == p.items.Keys + {id};
      assert queue == p.queue + ([id] + NewIds(p.items.Keys + {id}, books[1..]));
    }
  }

  /** Registering keeps the registry consistent. */
  lemma RegisterConsistent(p: Preloader, books: seq<Book>)
    requires Consistent(p.items)
    ensures Consistent(Register(p, books).items)
  {
    var r := Register(p, books);
    forall id | id in r.items
      ensures r.items[id].book.id == id && (r.items[id].loaded ==> AllReady(r.items[id]))
    {
      if id !in p.items {
        var b :| FirstWithId(books, b) && b.id == id && r.items[id] == Fresh(b);
      }
    }
  }

  lemma QueuedIsNew(p: Preloader, r: Preloader, i: int)
    requires QueuedOnce(p, r) && |p.queue| <= i < |r.queue|
    ensures r.queue[i] in r.items && r.queue[i] !in p.items
  {
  }

  lemma NothingNewQueued(p: Preloader, r: Preloader)
    requires QueuedOnce(p, r) && r.items.Keys == p.items.Keys
    ensures r.queue == p.queue
  {
    if |p.queue| < |r.queue| {
      QueuedIsNew(p, r, |p.queue|);
      assert false;
    }
  }

  /** Registering the same books twice adds and queues nothing the second time. */
  lemma RegisterIdempotent(p: Preloader, books: seq<Book>)
    ensures var r := Register(p, books);
            Register(r, books).items == r.items && Register(r, books).queue == r.queue
  {
    var r := Register(p, books);
    NothingNew(r, Register(r, books), BookIds(books));
  }

  lemma NothingNew(r: Preloader, r2: Preloader, ids: set<int>)
    requires ids <= r.items.Keys && r2.items.Keys == r.items.Keys + ids
    requires forall id | id in r.items :: r2.items[id] == r.items[id]
    requires QueuedOnce(r, r2)
    ensures r2.items == r.items && r2.queue == r.queue
  {
    assert r2.items.Keys == r.items.Keys;
    assert forall id | id in r2.items :: r2.items[id] == r.items[id];
    NothingNewQueued(r, r2);
  }

  // ------------------------------------------------------------ one item

  /** `url && url.trim() !== ''`: the URL names something to fetch. */
  predicate NotBlank(url: string) {
    url != "" && Strip(url, IsJsWhitespace) != ""
  }

  /** Step 2: the quote audio. `None` means the item was aborted here. */
  function LoadQuote(it: Item, fetch: string -> Fetched): (r: Option<Item>)
    ensures r.None? <==> NotBlank(it.book.quoteAudioUrl) && fetch(it.book.quoteAudioUrl).Failure?
    ensures !NotBlank(it.book.quoteAudioUrl) ==> r == Some(it.(quoteAudioReady := true))
    ensures r.Some? ==> r.value.(quoteAudioReady := it.quoteAudioReady, quoteAudioObjectUrl := it.quoteAudioObjectUrl) == it
    ensures r.Some? && it.quoteAudioReady ==> r.value.quoteAudioReady
    ensures NotBlank(it.book.quoteAudioUrl) && fetch(it.book.quoteAudioUrl).Blob? ==>
              r == Some(it.(quoteAudioObjectUrl := Some(fetch(it.book.quoteAudioUrl).objectUrl), quoteAudioReady := true))
    ensures NotBlank(it.book.quoteAudioUrl) && fetch(it.book.quoteAudioUrl).NoResponse? ==> r == Some(it)
  {
    var url := it.book.quoteAudioUrl;
    if !NotBlank(url) then Some(it.(quoteAudioReady := true))
    else match fetch(url)
      case NoResponse => Some(it)
      case Failure => None
      case Blob(u) => Some(it.(quoteAudioObjectUrl := Some(u), quoteAudioReady := true))
  }

  /** Step 3: the full audio, the same way. */
  function LoadAudio(it: Item, fetch: string -> Fetched): (r: Option<Item>)
    ensures r.None? <==> NotBlank(it.book.audioUrl) && fetch(it.book.audioUrl).Failure?
    ensures !NotBlank(it.book.audioUrl) ==> r == Some(it.(audioReady := true))
    ensures r.Some? ==> r.value.(audioReady := it.audioReady, audioObjectUrl := it.audioObjectUrl) == it
    ensures r.Some? && it.audioReady ==> r.value.audioReady
    ensures NotBlank(it.book.audioUrl) && fetch(it.book.audioUrl).Blob? ==>
              r == Some(it.(audioObjectUrl := Some(fetch(it.book.audioUrl).objectUrl), audioReady := true))
    ensures NotBlank(it.book.audioUrl) && fetch(it.book.audioUrl).NoResponse? ==> r == Some(it)
  {
    var url := it.book.audioUrl;
    if !NotBlank(url) then Some(it.(audioReady := true))
    else match fetch(url)
      case NoResponse => Some(it)
      case Failure => None
      case Blob(u) => Some(it.(audioObjectUrl := Some(u), audioReady := true))
  }

  /** Neither audio fetch of the item throws. */
  predicate Completes(it: Item, fetch: string -> Fetched) {
    && (NotBlank(it.book.quoteAudioUrl) ==> !fetch(it.book.quoteAudioUrl).Failure?)
    && (NotBlank(it.book.audioUrl) ==> !fetch(it.book.audioUrl).Failure?)
  }

  /** The quote audio fetch throws, which abandons the rest of the item. */
  predicate QuoteFails(it: Item, fetch: string -> Fetched) {
    NotBlank(it.book.quoteAudioUrl) && fetch(it.book.quoteAudioUrl).Failure?
  }

  /**
   * The rest of `preloadItem` once the early return for a loaded item is
   * passed: the video counts as ready (the head prefetch swallows its own
   * errors), then the quote audio and the full audio are loaded, and
   * `loaded` is set to the conjunction of the three flags. A throw leaves the flags set so far and
   * skips the rest.
   */
  function PreloadOne(it: Item, fetch: string -> Fetched): (r: Item)
    requires !it.loaded
    ensures r.book == it.book
    ensures r.videoReady
    ensures it.quoteAudioReady ==> r.quoteAudioReady
    ensures it.audioReady ==> r.audioReady
    ensures r.loaded ==> AllReady(r)
    ensures Completes(it, fetch) ==> (r.loaded <==> AllReady(r))
    ensures !NotBlank(it.book.quoteAudioUrl) ==> r.quoteAudioReady
    ensures !Completes(it, fetch) ==> !r.loaded
    ensures QuoteFails(it, fetch) ==> r == it.(videoReady := true)
    ensures var q := it.book.quoteAudioUrl;
            NotBlank(q) && fetch(q).Blob? ==> r.quoteAudioReady && r.quoteAudioObjectUrl == Some(fetch(q).objectUrl)
    ensures var q := it.book.quoteAudioUrl;
            NotBlank(q) && fetch(q).NoResponse? ==>
              r.quoteAudioReady == it.quoteAudioReady && r.quoteAudioObjectUrl == it.quoteAudioObjectUrl
    ensures var a := it.book.audioUrl;
            !QuoteFails(it, fetch) && !NotBlank(a) ==> r.audioReady
    ensures var a := it.book.audioUrl;
            !QuoteFails(it, fetch) && NotBlank(a) && fetch(a).Blob? ==>
              r.audioReady && r.audioObjectUrl == Some(fetch(a).objectUrl)
    ensures var a := it.book.audioUrl;
            QuoteFails(it, fetch) || (NotBlank(a) && !fetch(a).Blob?) ==>
              r.audioReady == it.audioReady && r.audioObjectUrl == it.audioObjectUrl
  {
    var v := it.(videoReady := true);
    match LoadQuote(v, fetch)
    case None => v
    case Some(q) =>
      match LoadAudio(q, fetch)
      case None => q
      case Some(a) => a.(loaded := AllReady(a))
  }

  /** `preloadItem(id)`: nothing for an unknown or already loaded id; otherwise that one entry is preloaded. */
  function PreloadItem(items: map<int, Item>, id: int, fetch: string -> Fetched): (r: map<int, Item>)
    ensures id !in items || items[id].loaded ==> r == items
    ensures r.Keys == items.Keys
    ensures forall k | k in items && k != id :: r[k] == items[k]
    ensures id in items && !items[id].loaded ==> r[id] == PreloadOne(items[id], fetch)
  {
    if id !in items || items[id].loaded then items
    else items[id := PreloadOne(items[id], fetch)]
  }

  /** A book with no quote audio and no full audio is loaded by one preload, whatever the network does. */
  lemma BlankUrlsLoadWithoutFetching(items: map<int, Item>, id: int, fetch: string -> Fetched)
    requires id in items
    requires !NotBlank(items[id].book.quoteAudioUrl) && !NotBlank(items[id].book.audioUrl)
    ensures PreloadItem(items, id, fetch)[id].loaded
  {
  }

  /**
   * When each audio URL of an entry not yet loaded is blank or fetches a
   * blob, one preload loads it, and `getPreloadedMedia` then returns ready
   * media carrying the fetched blobs' object URLs.
   */
  lemma FetchedBlobsLoad(p: Preloader, id: int, fetch: string -> Fetched)
    requires id in p.items && !p.items[id].loaded
    requires var b := p.items[id].book;
             && (NotBlank(b.quoteAudioUrl) ==> fetch(b.quoteAudioUrl).Blob?)
             && (NotBlank(b.audioUrl) ==> fetch(b.audioUrl).Blob?)
    ensures var b := p.items[id].book;
            var m := GetPreloadedMedia(p.(items := PreloadItem(p.items, id, fetch)), id);
            && m.Some? && m.value.ready
            && (NotBlank(b.quoteAudioUrl) ==> m.value.quoteAudioUrl == Some(fetch(b.quoteAudioUrl).objectUrl))
            && (NotBlank(b.audioUrl) ==> m.value.audioUrl == Some(fetch(b.audioUrl).objectUrl))
            && (!NotBlank(b.quoteAudioUrl) ==> m.value.quoteAudioUrl == p.items[id].quoteAudioObjectUrl)
            && (!NotBlank(b.audioUrl) ==> m.value.audioUrl == p.items[id].audioObjectUrl)
  {
    var r := PreloadOne(p.items[id], fetch);
    assert Completes(p.items[id], fetch);
    assert AllReady(r);
  }

  lemma PreloadItemConsistent(items: map<int, Item>, id: int, fetch: string -> Fetched)
    requires Consistent(items)
    ensures Consistent(PreloadItem(items, id, fetch))
  {
  }

  // ------------------------------------------------------------ the queue

  /** The ids preloaded one after the other. */
  function PreloadAll(items: map<int, Item>, ids: seq<int>, fetch: string -> Fetched): (r: map<int, Item>)
    ensures r.Keys == items.Keys
    decreases |ids|
  {
    if ids == [] then items else PreloadAll(PreloadItem(items, ids[0], fetch), ids[1..], fetch)
  }

  lemma {:induction false} PreloadAllAppend(items: map<int, Item>, a: seq<int>, b: seq<int>, fetch: string -> Fetched)
    ensures PreloadAll(items, a + b, fetch) == PreloadAll(PreloadAll(items, a, fetch), b, fetch)
    decreases |a|
  {
    if a == [] {
      assert a + b == b;
    } else {
      assert (a + b)[1..] == a[1..] + b;
      PreloadAllAppend(PreloadItem(items, a[0], fetch), a[1..], b, fetch);
    }
  }

  lemma {:induction false} PreloadAllConsistent(items: map<int, Item>, ids: seq<int>, fetch: string -> Fetched)
    requires Consistent(items)
    ensures Consistent(PreloadAll(items, ids, fetch))
    decreases |ids|
  {
    if ids != [] {
      PreloadItemConsistent(items, ids[0], fetch);
      PreloadAllConsistent(PreloadItem(items, ids[0], fetch), ids[1..], fetch);
    }
  }

  /** Preloading never clears a flag. */
  lemma {:induction false} PreloadAllMonotone(items: map<int, Item>, ids: seq<int>, fetch: string -> Fetched, id: int)
    requires id in items
    ensures var r := PreloadAll(items, ids, fetch);
            && (items[id].loaded ==> r[id].loaded)
            && (items[id].videoReady ==> r[id].videoReady)
            && (items[id].quoteAudioReady ==> r[id].quoteAudioReady)
            && (items[id].audioReady ==> r[id].audioReady)
    decreases |ids|
  {
    if ids != [] {
      PreloadAllMonotone(PreloadItem(items, ids[0], fetch), ids[1..], fetch, id);
    }
  }

  function Flatten(batches: seq<seq<int>>): seq<int> {
    if batches == [] then [] else Flatten(batches[..|batches| - 1]) + Last(batches)
  }

  lemma FlattenSnoc(batches: seq<seq<int>>, batch: seq<int>)
    ensures Flatten(batches + [batch]) == Flatten(batches) + batch
  {
    assert (batches + [batch])[..|batches|] == batches;
  }

  /**
   * `startPreload()`: a call while a run is in progress does nothing.
   * Otherwise the queue is taken from the front in batches of
   * `MAX_CONCURRENT` (the last batch possibly shorter), each batch is
   * preloaded, and the run ends with an empty queue. The batches are
   * returned alongside the new state.
   */
  method StartPreload(p: Preloader, fetch: string -> Fetched) returns (r: Preloader, batches: seq<seq<int>>)
    ensures p.preloading ==> r == p && batches == []
    ensures !p.preloading ==> r == Preloader(PreloadAll(p.items, p.queue, fetch), [], false)
    ensures !p.preloading ==> Flatten(batches) == p.queue
    ensures forall i | 0 <= i < |batches| :: 1 <= |batches[i]| <= MAX_CONCURRENT
    ensures forall i | 0 <= i < |batches| - 1 :: |batches[i]| == MAX_CONCURRENT
  {
    if p.preloading {
      return p, [];
    }
    var items, queue := p.items, p.queue;
    batches := [];
    while |queue| > 0
      invariant Flatten(batches) + queue == p.queue
      invariant items == PreloadAll(p.items, Flatten(batches), fetch)
      invariant forall i | 0 <= i < |batches| :: 1 <= |batches[i]| <= MAX_CONCURRENT
      invariant forall i | 0 <= i < |batches| - 1 :: |batches[i]| == MAX_CONCURRENT
      invariant batches != [] && |Last(batches)| < MAX_CONCURRENT ==> queue == []
      decreases |queue|
    {
      var n := if |queue| < MAX_CONCURRENT then |queue| else MAX_CONCURRENT;
      var batch := queue[..n];
      PreloadAllAppend(p.items, Flatten(batches), batch, fetch);
      items := PreloadAll(items, batch, fetch);
      FlattenSnoc(batches, batch);
      assert queue == batch + queue[n..];
      ConcatAssoc(Flatten(batches), batch, queue[n..]);
      batches := batches + [batch];
      queue := queue[n..];
    }
    assert Flatten(batches) + [] == Flatten(batches);
    r := Preloader(items, [], false);
  }

  // ------------------------------------------------------------- queries

  /** What `getPreloadedMedia` returns for a loaded entry; `None` stands for `undefined`. */
  datatype Media = Media(videoUrl: Option<string>, audioUrl: Option<string>, quoteAudioUrl: Option<string>, ready: bool)

  /** `getPreloadedMedia(id)`: null unless the entry exists and is loaded. */
  function GetPreloadedMedia(p: Preloader, id: int): (r: Option<Media>)
    ensures r.Some? <==> id in p.items && p.items[id].loaded
    ensures r.Some? ==> r.value.videoUrl.None?
    ensures r.Some? ==> r.value.audioUrl == p.items[id].audioObjectUrl && r.value.quoteAudioUrl == p.items[id].quoteAudioObjectUrl
    ensures r.Some? && Consistent(p.items) ==> r.value.ready
  {
    if id !in p.items || !p.items[id].loaded then None
    else
      var it := p.items[id];
      Some(Media(None, it.audioObjectUrl, it.quoteAudioObjectUrl,
                 it.videoReady && (it.quoteAudioReady || it.book.quoteAudioUrl == "")
                               && (it.audioReady || it.book.audioUrl == "")))
  }

  /** `isLoaded(id)`: false for an unknown id. */
  function IsLoaded(p: Preloader, id: int): (r: bool)
    ensures r <==> GetPreloadedMedia(p, id).Some?
  {
    id in p.items && p.items[id].loaded
  }

  function LoadedIds(items: map<int, Item>): (s: set<int>)
    ensures s <= items.Keys
    ensures forall id :: id in s <==> id in items && items[id].loaded
  {
    set id | id in items && items[id].loaded
  }

  datatype Progress = Progress(loaded: int, total: int, percentage: int)

  lemma SubsetCard(a: set<int>, b: set<int>)
    requires a <= b
    ensures |a| <= |b|
  {
    assert b == a + (b - a);
  }

  lemma DivBounds(n: int, d: int)
    requires n >= 0 && d > 0
    ensures 0 <= n / d && d * (n / d) <= n < d * (n / d + 1)
  {
    assert n == d * (n / d) + n % d;
  }

  lemma ScaleStrict(d: int, a: int, b: int)
    requires d > 0 && d * a < d * b
    ensures a < b
  {
  }

  lemma PercentBounds(loaded: nat, total: nat)
    requires 0 < total && loaded <= total
    ensures var r := (200 * loaded + total) / (2 * total);
            && 0 <= r <= 100
            && (loaded == 0 ==> r == 0)
            && (loaded == total ==> r == 100)
            && 2 * total * r <= 200 * loaded + total < 2 * total * (r + 1)
  {
    var n, d := 200 * loaded + total, 2 * total;
    var r := n / d;
    DivBounds(n, d);
    assert n < d * 101;
    ScaleStrict(d, r, 101);
    if loaded == 0 {
      assert n < d * 1;
      ScaleStrict(d, r, 1);
    }
    if loaded == total {
      assert d * 100 <= n;
      ScaleStrict(d, 100, r + 1);
    }
  }

  /**
   * `Math.round((loaded / total) * 100)` for `0 <= loaded <= total`, read on
   * exact rationals: the nearest integer to the percentage, halves rounded up.
   */
  function Percent(loaded: nat, total: nat): (r: int)
    requires 0 < total && loaded <= total
    ensures 0 <= r <= 100
    ensures loaded == 0 ==> r == 0
    ensures loaded == total ==> r == 100
    ensures 2 * total * r <= 200 * loaded + total < 2 * total * (r + 1)
  {
    PercentBounds(loaded, total);
    (200 * loaded + total) / (2 * total)
  }

  /** `getProgress()`: how many entries are loaded, out of how many, as a rounded percentage (0 when empty). */
  function GetProgress(p: Preloader): (r: Progress)
    ensures r.total == |p.items|
    ensures r.loaded == |LoadedIds(p.items)| && 0 <= r.loaded <= r.total
    ensures r.total == 0 ==> r.percentage == 0
    ensures 0 <= r.percentage <= 100
    ensures r.total > 0 && r.loaded == r.total ==> r.percentage == 100
  {
    var loaded := LoadedIds(p.items);
    SubsetCard(loaded, p.items.Keys);
    var total := |p.items|;
    Progress(|loaded|, total, if total > 0 then Percent(|loaded|, total) else 0)
  }

  // ------------------------------------------------------------- cleanup

  /** The object URLs an entry holds, which `cleanup` revokes. */
  function ObjectUrls(it: Item): (s: set<string>)
    ensures forall u :: u in s <==> (it.audioObjectUrl == Some(u) || it.quoteAudioObjectUrl == Some(u)) && u != ""
  {
    (if it.audioObjectUrl.Some? && it.audioObjectUrl.value != "" then {it.audioObjectUrl.value} else {})
    + (if it.quoteAudioObjectUrl.Some? && it.quoteAudioObjectUrl.value != "" then {it.quoteAudioObjectUrl.value} else {})
  }

  /**
   * `cleanup(id)`: a truthy id removes that entry only; no id, or the falsy
   * id 0, clears the registry. Returns the object URLs revoked. The queue
   * and the run flag are not touched.
   */
  function Cleanup(p: Preloader, id: Option<int>): (r: (Preloader, set<string>))
    ensures r.0.queue == p.queue && r.0.preloading == p.preloading
    ensures id.Some? && id.value != 0 ==>
              && r.0.items == p.items - {id.value}
              && r.1 == (if id.value in p.items then ObjectUrls(p.items[id.value]) else {})
    ensures id.None? || id.value == 0 ==>
              && r.0.items == map[]
              && forall u :: u in r.1 <==> exists k :: k in p.items && u in ObjectUrls(p.items[k])
  {
    if id.Some? && id.value != 0 then
      var k := id.value;
      (p.(items := p.items - {k}), if k in p.items then ObjectUrls(p.items[k]) else {})
    else
      var revoked := set k, u | k in p.items && u in ObjectUrls(p.items[k]) :: u;
      (p.(items := map[]), revoked)
  }
}
