/** The tldr news backend: how a news day is stored under an object key, how the
    storage listing becomes file names, and how the handlers turn those into
    responses.

    The object store is a parameter: a fetch function from keys to what reading the
    object gave, and a listing function from listing options to the listed objects
    in the order the store streams them. */
module NewsBackend {
  import opened Outcomes
  import opened Text

  // ------------------------------------------------------------ object keys

  const NEWS_PREFIX := "news/"
  const NEWS_SUFFIX := ".md"

  /** The object key of the news for day `id`. */
  function NewsKey(id: string): (key: string)
    ensures StartsWith(key, NEWS_PREFIX) && EndsWith(key, NEWS_SUFFIX)
    ensures |key| == |id| + 8
  {
    NEWS_PREFIX + id + NEWS_SUFFIX
  }

  /** The day a news object key names. */
  function IdOfKey(key: string): string {
    TrimSuffix(TrimPrefix(key, NEWS_PREFIX), NEWS_SUFFIX)
  }

  /** Every day is read back from its key, so distinct days have distinct keys. */
  lemma IdOfNewsKey(id: string)
    ensures IdOfKey(NewsKey(id)) == id
  {
    var key := NewsKey(id);
    assert key[..5] == NEWS_PREFIX;
    assert key[5..] == id + NEWS_SUFFIX;
    assert (id + NEWS_SUFFIX)[|id|..] == NEWS_SUFFIX;
    assert (id + NEWS_SUFFIX)[..|id|] == id;
  }

  lemma NewsKeyInjective(a: string, b: string)
    ensures NewsKey(a) == NewsKey(b) <==> a == b
  {
    if NewsKey(a) == NewsKey(b) {
      IdOfNewsKey(a);
      IdOfNewsKey(b);
    }
  }

  // ------------------------------------------------------------ GetNews

  /** What fetching an object and reading it whole gave. */
  datatype Fetch = LookupFailed | ReadFailed | Read(data: string)

  type Store = string -> Fetch

  const STATUS_OK: nat := 200
  const STATUS_NOT_FOUND: nat := 404
  const STATUS_INTERNAL_ERROR: nat := 500

  /** A handler's reply: an error status with its body, or a JSON document. */
  datatype NewsReply =
    | Failure(status: nat, body: string)
    | News(date: string, content: string)

  /** `GetNews`: fetches the object of day `id`. A failed lookup is "not found", a
      failed read an internal error, and otherwise the day and the object's text. */
  function GetNews(store: Store, id: string): (r: NewsReply)
    ensures r.Failure? && r.status == STATUS_NOT_FOUND <==> store(NewsKey(id)).LookupFailed?
    ensures r.Failure? && r.status == STATUS_INTERNAL_ERROR <==> store(NewsKey(id)).ReadFailed?
    ensures r.News? <==> store(NewsKey(id)).Read?
    ensures r.News? ==> r.date == id && r.content == store(NewsKey(id)).data
  {
    match store(NewsKey(id))
    case LookupFailed => Failure(STATUS_NOT_FOUND, "{\"error\": \"Not found\"}")
    case ReadFailed => Failure(STATUS_INTERNAL_ERROR, "{\"error\": \"Failed to read file\"}")
    case Read(data) => News(id, data)
  }

  // ------------------------------------------------------------ ListNewsSummaries

  /** The listing request: everything under the news prefix, at any depth. */
  datatype ListOptions = ListOptions(prefix: string, recursive: bool)

  const NEWS_LISTING := ListOptions(NEWS_PREFIX, true)

  /** One listed object, or the error the listing reported in its place. */
  datatype ListedObject = ListedObject(key: string, err: Option<string>)

  type Lister = ListOptions -> seq<ListedObject>

  /** The last `/`-separated segment of a key that has at least one `/`. */
  function LastSegment(key: string): (seg: Option<string>)
    ensures seg.Some? <==> '/' in key
  {
    var parts := Split(key, '/');
    SplitCount(key, '/');
    CountPositive(key, '/');
    if |parts| > 1 then Some(parts[|parts| - 1]) else None
  }

  /** The file names a listing yields, or the first error in it. */
  function FileNames(objects: seq<ListedObject>): (r: Result<seq<string>, string>)
    ensures r.Ok? ==> |r.value| <= |objects|
  {
    if objects == [] then Ok([])
    else if objects[0].err.Some? then Err(objects[0].err.value)
    else
      var rest := FileNames(objects[1..]);
      match rest
      case Err(e) => Err(e)
      case Ok(names) =>
        match LastSegment(objects[0].key)
        case Some(seg) => Ok([seg] + names)
        case None => Ok(names)
  }

  /** `ListNewsSummaries`: walks the news listing, keeping the file name of every key
      that has a directory part, and gives up with no names at the first error. */
  method ListNewsSummaries(list: Lister) returns (summaries: seq<string>, err: Option<string>)
    ensures FileNames(list(NEWS_LISTING)) == if err.Some? then Err(err.value) else Ok(summaries)
    ensures err.Some? ==> summaries == []
  {
    var objects := list(NEWS_LISTING);
    summaries := [];
    var i := 0;
    assert objects[i..] == objects;
    assert Prepend(summaries, FileNames(objects)) == FileNames(objects) by {
      if FileNames(objects).Ok? {
        assert summaries + FileNames(objects).value == FileNames(objects).value;
      }
    }
    while i < |objects|
      invariant 0 <= i <= |objects|
      invariant forall k | 0 <= k < i :: objects[k].err.None?
      invariant FileNames(objects) == Prepend(summaries, FileNames(objects[i..]))
    {
      if objects[i].err.Some? {
        FileNamesAtError(objects, i);
        return [], objects[i].err;
      }
      var parts := Split(objects[i].key, '/');
      SplitCount(objects[i].key, '/');
      CountPositive(objects[i].key, '/');
      assert objects[i..][1..] == objects[i + 1..];
      if |parts| > 1 {
        PrependAppend(summaries, parts[|parts| - 1], FileNames(objects[i + 1..]));
        summaries := summaries + [parts[|parts| - 1]];
      }
      i := i + 1;
    }
    assert objects[i..] == [];
    assert summaries + [] == summaries;
    err := None;
  }

  /** `names` in front of a result's names; an error stays the error. */
  function Prepend(names: seq<string>, r: Result<seq<string>, string>): Result<seq<string>, string> {
    match r
    case Ok(more) => Ok(names + more)
    case Err(e) => Err(e)
  }

  lemma PrependAppend(names: seq<string>, seg: string, r: Result<seq<string>, string>)
    ensures Prepend(names, match r case Ok(more) => Ok([seg] + more) case Err(e) => Err(e)) == Prepend(names + [seg], r)
  {
    if r.Ok? {
      assert names + ([seg] + r.value) == names + [seg] + r.value;
    }
  }

  /** The first error of a listing is the error of the whole. */
  lemma FileNamesAtError(objects: seq<ListedObject>, i: nat)
    requires i < |objects| && objects[i].err.Some?
    requires forall k | 0 <= k < i :: objects[k].err.None?
    ensures FileNames(objects) == Err(objects[i].err.value)
    decreases i
  {
    if i > 0 {
      FileNamesAtError(objects[1..], i - 1);
    }
  }

  lemma CountPositive(s: string, c: char)
    ensures Count(s, c) > 0 <==> c in s
  {
    if s != [] {
      CountPositive(s[1..], c);
      assert s == [s[0]] + s[1..];
    }
  }

  /** A name found by the listing is a key's last segment: it has no `/`, and the key
      ends with `/` followed by it. */
  lemma {:induction false} LastSegmentOfKey(key: string)
    requires '/' in key
    ensures '/' !in LastSegment(key).value
    ensures EndsWith(key, "/" + LastSegment(key).value)
  {
    var parts := Split(key, '/');
    SplitCount(key, '/');
    CountPositive(key, '/');
    SplitPiecesFree(key, '/');
    JoinSplit(key, '/');
    var n := |parts|;
    JoinLast(parts, '/');
    var head := Join(parts[..n - 1], '/');
    assert key == head + ("/" + parts[n - 1]);
  }

  /** Joining pieces ends with the separator and the last piece. */
  lemma {:induction false} JoinLast(parts: seq<string>, sep: char)
    requires |parts| > 1
    ensures Join(parts, sep) == Join(parts[..|parts| - 1], sep) + [sep] + parts[|parts| - 1]
  {
    var n := |parts|;
    if n > 2 {
      JoinLast(parts[1..], sep);
      assert parts[1..][..n - 2] == parts[..n - 1][1..];
      assert parts[..n - 1][0] == parts[0];
    } else {
      assert parts[..1] == [parts[0]];
    }
  }

  /** `dir/name` with neither part holding a `/` gives `name`. */
  lemma LastSegmentOfPath(dir: string, name: string)
    requires '/' !in dir && '/' !in name
    ensures LastSegment(dir + "/" + name) == Some(name)
  {
    SplitTwo(dir, name, '/');
  }

  /** A listing's first object adds its file name, if any, in front of the rest. */
  lemma FileNamesCons(o: ListedObject, rest: seq<ListedObject>)
    requires o.err.None?
    ensures FileNames([o] + rest) == match LastSegment(o.key)
      case Some(seg) => Prepend([seg], FileNames(rest))
      case None => FileNames(rest)
  {
    assert ([o] + rest)[1..] == rest;
  }

  /** A key without a `/` gives no name. */
  lemma KeyWithoutDirectory()
    ensures FileNames([ListedObject("readme", None)]) == Ok([])
  {
    var o := ListedObject("readme", None);
    SplitFree(o.key, '/');
    FileNamesCons(o, []);
    assert [o] + [] == [o];
  }

  /** Keys `news/<f>` give the names `f`, in the listing's order. */
  lemma NamesInListingOrder(a: string, b: string)
    requires '/' !in a && '/' !in b
    ensures FileNames([ListedObject(NEWS_PREFIX + a, None), ListedObject(NEWS_PREFIX + b, None)]) == Ok([a, b])
  {
    var oa, ob := ListedObject(NEWS_PREFIX + a, None), ListedObject(NEWS_PREFIX + b, None);
    NewsPath(a);
    NewsPath(b);
    FileNamesCons(ob, []);
    assert [ob] + [] == [ob];
    assert FileNames([ob]) == Ok([b] + []);
    assert [b] + [] == [b];
    FileNamesCons(oa, [ob]);
    assert [oa] + [ob] == [oa, ob];
    assert [a] + [b] == [a, b];
  }

  /** A key under the news prefix with a plain name gives that name. */
  lemma NewsPath(name: string)
    requires '/' !in name
    ensures LastSegment(NEWS_PREFIX + name) == Some(name)
  {
    assert NEWS_PREFIX + name == "news" + "/" + name;
    LastSegmentOfPath("news", name);
  }

  /** An error later in the listing discards the names found before it. */
  lemma ErrorDiscardsNames(a: string, e: string)
    requires '/' !in a
    ensures FileNames([ListedObject(NEWS_PREFIX + a, None), ListedObject("", Some(e))]) == Err(e)
  {
    var oa, oe := ListedObject(NEWS_PREFIX + a, None), ListedObject("", Some(e));
    NewsPath(a);
    FileNamesCons(oa, [oe]);
    assert [oa] + [oe] == [oa, oe];
  }

  // ------------------------------------------------------------ ListNews

  /** The day each file name stands for: the name without one trailing `.md`. */
  function Dates(filenames: seq<string>): (dates: seq<string>)
    ensures |dates| == |filenames|
    ensures forall i | 0 <= i < |filenames| :: dates[i] + NEWS_SUFFIX == filenames[i] || (dates[i] == filenames[i] && !EndsWith(filenames[i], NEWS_SUFFIX))
  {
    seq(|filenames|, i requires 0 <= i < |filenames| => TrimSuffix(filenames[i], NEWS_SUFFIX))
  }

  datatype ListReply =
    | ListFailure(status: nat, body: string)
    | Summaries(dates: seq<string>)

  /** `ListNews`: the days of the listed files, in listing order, or an internal error
      when the listing failed. */
  method ListNews(list: Lister) returns (r: ListReply)
    ensures r.ListFailure? <==> FileNames(list(NEWS_LISTING)).Err?
    ensures r.ListFailure? ==> r.status == STATUS_INTERNAL_ERROR
    ensures r.Summaries? ==> r.dates == Dates(FileNames(list(NEWS_LISTING)).value)
  {
    var filenames, err := ListNewsSummaries(list);
    if err.Some? {
      return ListFailure(STATUS_INTERNAL_ERROR, "failed to list news summaries");
    }
    var summaries := [];
    for i := 0 to |filenames|
      invariant summaries == Dates(filenames[..i])
    {
      summaries := summaries + [TrimSuffix(filenames[i], NEWS_SUFFIX)];
    }
    assert filenames[..|filenames|] == filenames;
    r := Summaries(summaries);
  }

  /** A day listed from a key `news/<day>.md` is fetched again from that same key. */
  lemma ListedDayFetchesItsKey(day: string)
    requires '/' !in day
    ensures FileNames([ListedObject(NewsKey(day), None)]) == Ok([day + NEWS_SUFFIX])
    ensures Dates([day + NEWS_SUFFIX]) == [day]
    ensures NewsKey(Dates([day + NEWS_SUFFIX])[0]) == NewsKey(day)
  {
    var name := day + NEWS_SUFFIX;
    assert '/' !in name by {
      assert forall c | c in name :: c in day || c in NEWS_SUFFIX;
    }
    assert NewsKey(day) == NEWS_PREFIX + name;
    NewsPath(name);
    var o := ListedObject(NewsKey(day), None);
    FileNamesCons(o, []);
    assert [o] + [] == [o];
    assert [name] + [] == [name];
    assert name[..|day|] == day;
  }
}
