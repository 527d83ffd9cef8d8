/** The experiment repository: the request each call issues, and the file
    name a download is saved under. */
module ExperimentRepository {
  import opened Options
  import opened JsText
  import Forms

  datatype Verb = Get | Post | Put

  /** A request: its verb, its path, and its `page` query parameter if any. */
  datatype Request = Request(verb: Verb, path: string, page: Option<int>)

  /** `list(page)`: the page parameter is set only for a positive page. */
  function ListRequest(page: int): (r: Request)
    ensures r.verb == Get && r.path == "/experiments/"
    ensures r.page.Some? <==> page > 0
    ensures r.page.Some? ==> r.page.value == page
  {
    Request(Get, "/experiments/", if page > 0 then Some(page) else None)
  }

  /** `get(id)`: `idText` is the id as the template literal prints it. */
  function GetRequest(idText: string): (r: Request)
    ensures r.verb == Get && r.page.None?
    ensures r.path == "/experiments/" + idText + "/"
  {
    Request(Get, "/experiments/" + idText + "/", None)
  }

  /** `save(form)`: PUT to the experiment's own path when the form has an
      `id`, POST to the collection otherwise. */
  function SaveRequest(form: seq<Forms.Entry>): (r: Request)
    ensures r.page.None?
    ensures r.verb == Put <==> Forms.Lookup(form, "id").Some?
    ensures r.verb == Put ==> r.path == "/experiments/" + Forms.Lookup(form, "id").value + "/"
    ensures r.verb != Put ==> r == Request(Post, "/experiments/", None)
  {
    match Forms.Lookup(form, "id")
    case Some(id) => Request(Put, "/experiments/" + id + "/", None)
    case None => Request(Post, "/experiments/", None)
  }

  /** `download(id)`. */
  function DownloadRequest(id: int): (r: Request)
    ensures r.verb == Get && r.page.None?
    ensures r.path == "/experiments/download/" + IntToString(id) + "/"
  {
    Request(Get, "/experiments/download/" + IntToString(id) + "/", None)
  }

  // ---------------------------------------------------------------- file name

  /** The text `filename="` the pattern looks for. */
  const Tag: string := "filename=\""

  /** `filename="` starts at `j` in `h`, letters compared without case. */
  predicate TagAt(h: string, j: nat) {
    j + |Tag| <= |h| && forall k :: 0 <= k < |Tag| ==> AsciiLower(h[j + k]) == Tag[k]
  }

  /** Position just after the last line terminator of `h`, 0 if there is none. */
  function LastLineStart(h: string): (n: nat)
    ensures n <= |h|
    ensures n > 0 ==> IsLineTerminator(h[n - 1])
    ensures forall k :: n <= k < |h| ==> !IsLineTerminator(h[k])
  {
    if h == [] then 0
    else if IsLineTerminator(h[|h| - 1]) then |h|
    else LastLineStart(h[..|h| - 1])
  }

  /** `filename="` at `j` can open the match: after the last line terminator,
      and followed by at least the closing quote that ends the header. */
  predicate Usable(h: string, j: nat) {
    LastLineStart(h) <= j && j + |Tag| < |h| && h[|h| - 1] == '"' && TagAt(h, j)
  }

  /** The last usable position below `n`: greedy `.*` makes the pattern take it. */
  function LastUsable(h: string, n: nat): (r: Option<nat>)
    ensures r.Some? ==> r.value < n && Usable(h, r.value)
    ensures r.Some? ==> forall j: nat :: r.value < j < n ==> !Usable(h, j)
    ensures r.None? ==> forall j: nat :: j < n ==> !Usable(h, j)
  {
    if n == 0 then None
    else if Usable(h, n - 1) then Some(n - 1)
    else LastUsable(h, n - 1)
  }

  /** `h.replace(/.*filename="(.*)"$/i, '$1')`. Only the text after the last
      line terminator can match, since neither `.` nor the tag matches one
      and `$` is the end of the input. The match runs from that line's start
      to the end, and is replaced by what lies between the last usable tag
      and the final quote. With no match the header comes back unchanged. */
  function FilenameFromHeader(h: string): (r: string)
    ensures LastUsable(h, |h|).None? ==> r == h
    ensures LastUsable(h, |h|).Some? ==>
              var j := LastUsable(h, |h|).value;
              r == h[..LastLineStart(h)] + h[j + |Tag|..|h| - 1]
  {
    match LastUsable(h, |h|)
    case None => h
    case Some(j) => h[..LastLineStart(h)] + h[j + |Tag|..|h| - 1]
  }

  /** The name a download is saved under: the header's, or `experiment_{id}.zip`. */
  function DownloadFilename(id: int, contentDisposition: Option<string>): (r: string)
    ensures contentDisposition.None? ==> r == "experiment_" + IntToString(id) + ".zip"
    ensures contentDisposition.Some? ==> r == FilenameFromHeader(contentDisposition.value)
  {
    match contentDisposition
    case None => "experiment_" + IntToString(id) + ".zip"
    case Some(h) => FilenameFromHeader(h)
  }

  /** A header `<prefix>filename="<name>"` on one line gives back `name`,
      whatever the prefix, as long as the name holds no quote. */
  lemma {:induction false} FilenameRoundTrip(prefix: string, name: string)
    requires forall k :: 0 <= k < |prefix| ==> !IsLineTerminator(prefix[k])
    requires forall k :: 0 <= k < |name| ==> !IsLineTerminator(name[k]) && name[k] != '"'
    ensures FilenameFromHeader(prefix + Tag + name + "\"") == name
  {
    var h := prefix + Tag + name + "\"";
    var j := |prefix|;
    HeaderLayout(prefix, name);
    NoLineTerminator(h);
    assert Usable(h, j);
    NoLaterTag(h, j, |name|);
    LastUsableIsLast(h, |h|, j);
  }

  /** Where the parts of `<prefix>filename="<name>"` lie. */
  lemma HeaderLayout(prefix: string, name: string)
    requires forall k :: 0 <= k < |prefix| ==> !IsLineTerminator(prefix[k])
    requires forall k :: 0 <= k < |name| ==> !IsLineTerminator(name[k]) && name[k] != '"'
    ensures var h := prefix + Tag + name + "\"";
      && |h| == |prefix| + |Tag| + |name| + 1
      && (forall k :: 0 <= k < |h| ==> !IsLineTerminator(h[k]))
      && TagAt(h, |prefix|) && h[|h| - 1] == '"'
      && (forall k :: |prefix| + |Tag| <= k < |h| - 1 ==> h[k] != '"')
      && h[|prefix| + |Tag|..|h| - 1] == name
  {
    var h := prefix + Tag + name + "\"";
    forall k | 0 <= k < |h|
      ensures !IsLineTerminator(h[k])
    {
      if k < |prefix| {
        assert h[k] == prefix[k];
      } else if k < |prefix| + |Tag| {
        assert h[k] == Tag[k - |prefix|];
      } else if k < |h| - 1 {
        assert h[k] == name[k - |prefix| - |Tag|];
      }
    }
    assert h[|prefix|..|prefix| + |Tag|] == Tag;
    assert h[|prefix| + |Tag|..|h| - 1] == name;
  }

  /** A tag needs a quote nine characters in; between the tag at `j` and
      the final quote there is none. */
  lemma NoLaterTag(h: string, j: nat, len: nat)
    requires |h| == j + |Tag| + len + 1
    requires forall k :: j + |Tag| <= k < |h| - 1 ==> h[k] != '"'
    ensures forall i: nat :: j < i < |h| ==> !Usable(h, i)
  {
    forall i: nat | j < i < |h|
      ensures !Usable(h, i)
    {
      if i + |Tag| < |h| {
        assert h[i + 9] != '"' && Tag[9] == '"';
        assert AsciiLower(h[i + 9]) != Tag[9];
      }
    }
  }

  lemma NoLineTerminator(h: string)
    requires forall k :: 0 <= k < |h| ==> !IsLineTerminator(h[k])
    ensures LastLineStart(h) == 0
  {
  }

  /** The last usable position below `n` is the one LastUsable finds. */
  lemma {:induction false} LastUsableIsLast(h: string, n: nat, j: nat)
    requires j < n && Usable(h, j)
    requires forall i: nat :: j < i < n ==> !Usable(h, i)
    ensures LastUsable(h, n) == Some(j)
    decreases n
  {
    if n - 1 != j {
      LastUsableIsLast(h, n - 1, j);
    }
  }

  /** A header that does not end in a quote is never rewritten. */
  lemma FilenameWithoutClosingQuote(h: string)
    requires h == [] || h[|h| - 1] != '"'
    ensures FilenameFromHeader(h) == h
  {
  }
}
