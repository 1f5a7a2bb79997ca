/**
 * TeamsHistoryService: fetching the messages of a chat or a channel from
 * Microsoft Graph, following the "@odata.nextLink" cursor of each page
 * (section 4.5.5 of OData JSON Format v4.01), keeping the messages at or after
 * an optional cutoff, and, in a channel, fetching the replies of every root.
 *
 * The network is a sequence of responses: the k-th GET of a paged walk gets
 * the k-th response, a page or the exception that Get threw. The model records
 * every URL requested.
 */
module TeamsHistoryService {
  import opened Wrappers
  import opened Linq
  import opened DotNetText
  import opened GraphModels

  const MaxPageSizeQuery: string := "?&top=50"

  /** What one GET yields: the parsed page, or the exception Get threw. */
  type Response<E> = Result<Page, E>

  /** DateTimeOffset.Compare(created, cutoff) >= 0 */
  function AtOrAfter(cutoff: int): Message -> bool {
    (m: Message) => m.createdDateTime >= cutoff
  }

  /** DateTimeOffset.Compare(created, cutoff) < 0 */
  function OlderThan(cutoff: int): Message -> bool {
    (m: Message) => m.createdDateTime < cutoff
  }

  /** The messages of a page that the walk keeps. */
  function Kept(p: Page, date: Option<int>): seq<Message> {
    if date.None? then p.messages else Filter(p.messages, AtOrAfter(date.value))
  }

  /** shouldRequestNextPage after reading page p. */
  predicate WantsNext(p: Page, date: Option<int>) {
    |p.messages| > 0 && (date.None? || |Filter(p.messages, OlderThan(date.value))| == 0)
  }

  /** The walk makes no request after the k-th. */
  predicate StopsAt<E>(pages: seq<Response<E>>, date: Option<int>, k: nat)
    requires k < |pages|
  {
    pages[k].Failure? || IsNullOrEmpty(pages[k].value.nextLink) || !WantsNext(pages[k].value, date)
  }

  /** The responses contain a last page: the server does not hand out cursors forever. */
  predicate PagingEnds<E>(pages: seq<Response<E>>, date: Option<int>) {
    exists k :: 0 <= k < |pages| && StopsAt(pages, date, k)
  }

  function FirstStopFrom<E>(pages: seq<Response<E>>, date: Option<int>, k: nat): (n: nat)
    requires k <= |pages|
    requires exists j :: k <= j < |pages| && StopsAt(pages, date, j)
    ensures k <= n < |pages| && StopsAt(pages, date, n)
    ensures forall i :: k <= i < n ==> !StopsAt(pages, date, i)
    ensures forall i :: k <= i < n ==> pages[i].Success? && pages[i].value.nextLink.Some?
    decreases |pages| - k
  {
    if StopsAt(pages, date, k) then k else FirstStopFrom(pages, date, k + 1)
  }

  /** The index of the last request of the walk. */
  function FirstStop<E>(pages: seq<Response<E>>, date: Option<int>): (n: nat)
    requires PagingEnds(pages, date)
    ensures n < |pages| && StopsAt(pages, date, n)
    ensures forall i :: 0 <= i < n ==> !StopsAt(pages, date, i)
    ensures forall i :: 0 <= i < n ==> pages[i].Success? && pages[i].value.nextLink.Some?
  {
    FirstStopFrom(pages, date, 0)
  }

  /** The kept messages of a run of pages, in page order. */
  function KeptAll<E>(pages: seq<Response<E>>, date: Option<int>): seq<Message>
    requires forall i :: 0 <= i < |pages| ==> pages[i].Success?
  {
    if |pages| == 0 then [] else KeptAll(pages[..|pages| - 1], date) + Kept(pages[|pages| - 1].value, date)
  }

  /** The cursors of a run of pages that all carry one. */
  function NextLinks<E>(pages: seq<Response<E>>): seq<string>
    requires forall i :: 0 <= i < |pages| ==> pages[i].Success? && pages[i].value.nextLink.Some?
  {
    if |pages| == 0 then [] else NextLinks(pages[..|pages| - 1]) + [pages[|pages| - 1].value.nextLink.value]
  }

  /** What GetMessagesDetailsPaged returns for these responses. */
  /**
   * The handling of one page inside the loop: with a cutoff, the messages at
   * or after it are kept and the next page is wanted when the page is not
   * empty and holds nothing older; without one, all are kept and the next
   * page is wanted when the page is not empty.
   */
  method ReadPage(res: Page, date: Option<int>) returns (kept: seq<Message>, shouldRequestNextPage: bool)
    ensures kept == Kept(res, date)
    ensures shouldRequestNextPage == WantsNext(res, date)
  {
    if date.Some? {
      kept := Filter(res.messages, AtOrAfter(date.value));
      shouldRequestNextPage := |res.messages| > 0 && |Filter(res.messages, OlderThan(date.value))| == 0;
    } else {
      shouldRequestNextPage := |res.messages| > 0;
      kept := res.messages;
    }
  }

  /** Keeping the pages up to k and then page k keeps the pages up to k + 1. */
  lemma KeptAllStep<E>(pages: seq<Response<E>>, date: Option<int>, k: nat)
    requires k < |pages|
    requires forall i :: 0 <= i <= k ==> pages[i].Success?
    ensures KeptAll(pages[..k + 1], date) == KeptAll(pages[..k], date) + Kept(pages[k].value, date)
  {
    assert pages[..k + 1][..k] == pages[..k];
  }

  /** The cursors of the pages up to k + 1 are those up to k, then page k's. */
  lemma NextLinksStep<E>(pages: seq<Response<E>>, k: nat)
    requires k < |pages|
    requires forall i :: 0 <= i <= k ==> pages[i].Success? && pages[i].value.nextLink.Some?
    ensures NextLinks(pages[..k + 1]) == NextLinks(pages[..k]) + [pages[k].value.nextLink.value]
  {
    assert pages[..k + 1][..k] == pages[..k];
  }

  function PagedResult<E>(pages: seq<Response<E>>, date: Option<int>): Result<seq<Message>, E>
    requires PagingEnds(pages, date)
  {
    var n := FirstStop(pages, date);
    if pages[n].Failure? then Failure(pages[n].error) else Success(KeptAll(pages[..n + 1], date))
  }

  /** The URLs GetMessagesDetailsPaged requests: the first URL, then each page's cursor. */
  function PagedRequests<E>(url: string, pages: seq<Response<E>>, date: Option<int>): seq<string>
    requires PagingEnds(pages, date)
  {
    var n := FirstStop(pages, date);
    [url] + NextLinks(pages[..n])
  }

  /**
   * GetMessagesDetailsPaged: a do-while loop that requests a page, keeps its
   * messages (those at or after the cutoff when there is one), and goes on
   * while the page has a cursor and asks for more.
   */
  method GetMessagesDetailsPaged<E>(url: string, date: Option<int>, pages: seq<Response<E>>)
    returns (result: Result<seq<Message>, E>, requested: seq<string>)
    requires PagingEnds(pages, date)
    ensures result == PagedResult(pages, date)
    ensures requested == PagedRequests(url, pages, date)
  {
    var n := FirstStop(pages, date);
    var results: seq<Message> := [];
    var nextLink: string := url;
    var shouldRequestNextPage := true;
    requested := [];
    var k := 0;
    while true
      invariant k <= n
      invariant forall i :: 0 <= i < k ==> pages[i].Success? && pages[i].value.nextLink.Some?
      invariant results == KeptAll(pages[..k], date)
      invariant requested + [nextLink] == [url] + NextLinks(pages[..k])
      decreases n - k
    {
      requested := requested + [nextLink];
      assert requested == [url] + NextLinks(pages[..k]);
      var response := pages[k];
      if response.Failure? {
        assert StopsAt(pages, date, k);
        assert k == n;
        result := Failure(response.error);
        return;
      }
      var res := response.value;
      var kept;
      kept, shouldRequestNextPage := ReadPage(res, date);
      results := results + kept;
      KeptAllStep(pages, date, k);
      if IsNullOrEmpty(res.nextLink) || !shouldRequestNextPage {
        assert StopsAt(pages, date, k);
        assert k == n;
        result := Success(results);
        return;
      }
      NextLinksStep(pages, k);
      nextLink := res.nextLink.value;
      k := k + 1;
    }
  }

  /** The concatenation of the pages' messages, first page first. */
  function AllMessages<E>(pages: seq<Response<E>>): seq<Message>
    requires forall i :: 0 <= i < |pages| ==> pages[i].Success?
  {
    if |pages| == 0 then [] else pages[0].value.messages + AllMessages(pages[1..])
  }

  lemma {:induction false} KeptAllNone<E>(pages: seq<Response<E>>)
    requires forall i :: 0 <= i < |pages| ==> pages[i].Success?
    ensures KeptAll(pages, None) == AllMessages(pages)
    decreases |pages|
  {
    if |pages| > 0 {
      var last := |pages| - 1;
      if last == 0 {
        assert pages[..last] == [];
      } else {
        KeptAllNone(pages[1..]);
        KeptAllNone(pages[..last]);
        KeptAllNone(pages[1..][..last - 1]);
        assert pages[..last][1..] == pages[1..][..last - 1];
        assert pages[1..][last - 1] == pages[last];
        assert pages[..last][0] == pages[0];
      }
    }
  }

  lemma {:induction false} KeptAllMember<E>(pages: seq<Response<E>>, date: Option<int>, m: Message)
    requires forall i :: 0 <= i < |pages| ==> pages[i].Success?
    ensures m in KeptAll(pages, date)
        <==> (exists i :: 0 <= i < |pages| && m in pages[i].value.messages)
             && (date.None? || m.createdDateTime >= date.value)
    decreases |pages|
  {
    if |pages| > 0 {
      var last := |pages| - 1;
      KeptAllMember(pages[..last], date, m);
      if date.Some? {
        FilterMember(pages[last].value.messages, AtOrAfter(date.value), m);
      }
      InPagesSnoc(pages, pages[..last], m);
    }
  }

  /** A message is in some page iff it is in some page before the last or in the last. */
  lemma InPagesSnoc<E>(pages: seq<Response<E>>, front: seq<Response<E>>, m: Message)
    requires |pages| > 0 && front == pages[..|pages| - 1]
    requires forall i :: 0 <= i < |pages| ==> pages[i].Success?
    ensures (exists i :: 0 <= i < |pages| && m in pages[i].value.messages)
        <==> (exists i :: 0 <= i < |front| && m in front[i].value.messages)
             || m in pages[|pages| - 1].value.messages
  {
    if exists i :: 0 <= i < |pages| && m in pages[i].value.messages {
      var i :| 0 <= i < |pages| && m in pages[i].value.messages;
      if i < |front| {
        assert front[i] == pages[i];
      }
    }
    if exists i :: 0 <= i < |front| && m in front[i].value.messages {
      var i :| 0 <= i < |front| && m in front[i].value.messages;
      assert pages[i] == front[i];
    }
  }



  /** m is on one of the pages the walk reads. */
  predicate OnPageRead<E>(pages: seq<Response<E>>, date: Option<int>, m: Message)
    requires PagingEnds(pages, date)
  {
    exists i :: 0 <= i <= FirstStop(pages, date) && pages[i].Success? && m in pages[i].value.messages
  }

  /**
   * A message is returned exactly when it is on one of the pages read and,
   * with a cutoff, is not older than it.
   */
  lemma PagedMember<E>(pages: seq<Response<E>>, date: Option<int>, m: Message)
    requires PagingEnds(pages, date)
    requires PagedResult(pages, date).Success?
    ensures m in PagedResult(pages, date).value
        <==> OnPageRead(pages, date, m) && (date.None? || m.createdDateTime >= date.value)
  {
    var n := FirstStop(pages, date);
    var read := pages[..n + 1];
    KeptAllMember(read, date, m);
    if OnPageRead(pages, date, m) {
      var i :| 0 <= i <= n && pages[i].Success? && m in pages[i].value.messages;
      assert read[i] == pages[i];
    }
  }

  /** With a cutoff, every message returned was created at or after it. */
  lemma PagedAtOrAfter<E>(pages: seq<Response<E>>, d: int, m: Message)
    requires PagingEnds(pages, Some(d))
    requires PagedResult(pages, Some(d)).Success?
    requires m in PagedResult(pages, Some(d)).value
    ensures m.createdDateTime >= d
  {
    PagedMember(pages, Some(d), m);
  }

  lemma WantsNextMeaning(p: Page, date: Option<int>)
    ensures WantsNext(p, date)
        <==> |p.messages| > 0 && (date.None? || forall i :: 0 <= i < |p.messages| ==> p.messages[i].createdDateTime >= date.value)
  {
    if date.Some? {
      var older := Filter(p.messages, OlderThan(date.value));
      if |older| > 0 {
        FilterMember(p.messages, OlderThan(date.value), older[0]);
      }
      forall i | 0 <= i < |p.messages| && p.messages[i].createdDateTime < date.value
        ensures |older| > 0
      {
        FilterMember(p.messages, OlderThan(date.value), p.messages[i]);
      }
    }
  }

  /**
   * The walk reads every page up to the first one that fails, is empty, has no
   * cursor or holds a message older than the cutoff, and stops there.
   */
  lemma PagedStopRule<E>(pages: seq<Response<E>>, date: Option<int>)
    requires PagingEnds(pages, date)
    ensures var n := FirstStop(pages, date);
      && (forall i :: 0 <= i < n ==>
            && pages[i].Success?
            && |pages[i].value.messages| > 0
            && !IsNullOrEmpty(pages[i].value.nextLink)
            && (date.None? || forall j :: 0 <= j < |pages[i].value.messages| ==> pages[i].value.messages[j].createdDateTime >= date.value))
      && (|| pages[n].Failure?
          || IsNullOrEmpty(pages[n].value.nextLink)
          || |pages[n].value.messages| == 0
          || (date.Some? && exists j :: 0 <= j < |pages[n].value.messages| && pages[n].value.messages[j].createdDateTime < date.value))
  {
    var n := FirstStop(pages, date);
    forall i | 0 <= i < n
      ensures && pages[i].Success?
              && |pages[i].value.messages| > 0
              && !IsNullOrEmpty(pages[i].value.nextLink)
              && (date.None? || forall j :: 0 <= j < |pages[i].value.messages| ==> pages[i].value.messages[j].createdDateTime >= date.value)
    {
      assert !StopsAt(pages, date, i);
      WantsNextMeaning(pages[i].value, date);
    }
    assert StopsAt(pages, date, n);
    if pages[n].Success? {
      var p := pages[n].value;
      WantsNextMeaning(p, date);
      if !IsNullOrEmpty(p.nextLink) && |p.messages| > 0 {
        assert !WantsNext(p, date);
      }
    }
  }

  lemma {:induction false} NextLinksIndex<E>(pages: seq<Response<E>>)
    requires forall i :: 0 <= i < |pages| ==> pages[i].Success? && pages[i].value.nextLink.Some?
    ensures |NextLinks(pages)| == |pages|
    ensures forall i :: 0 <= i < |pages| ==> NextLinks(pages)[i] == pages[i].value.nextLink.value
    decreases |pages|
  {
    if |pages| > 0 {
      NextLinksIndex(pages[..|pages| - 1]);
    }
  }

  /**
   * At least one request is made, the first is the given URL, and each later
   * one is the cursor of the page before it, copied verbatim.
   */
  lemma PagedRequestChain<E>(url: string, pages: seq<Response<E>>, date: Option<int>)
    requires PagingEnds(pages, date)
    ensures var n := FirstStop(pages, date); var r := PagedRequests(url, pages, date);
      && |r| == n + 1
      && r[0] == url
      && forall i :: 0 <= i < n ==> r[i + 1] == pages[i].value.nextLink.value
  {
    var n := FirstStop(pages, date);
    NextLinksIndex(pages[..n]);
  }

  /** Without a cutoff, every message of every page read is returned, in page order. */
  lemma PagedNoCutoff<E>(pages: seq<Response<E>>)
    requires PagingEnds(pages, None)
    requires PagedResult(pages, None).Success?
    ensures PagedResult(pages, None).value == AllMessages(pages[..FirstStop(pages, None) + 1])
  {
    KeptAllNone(pages[..FirstStop(pages, None) + 1]);
  }

  /** Some response ends the walk: a failure or a page without a cursor. */
  predicate CursorEnds<E>(pages: seq<Response<E>>) {
    exists k :: 0 <= k < |pages| && (pages[k].Failure? || IsNullOrEmpty(pages[k].value.nextLink))
  }

  /**
   * ExpandMessageRepliesPaged: follows the cursors until a page has none, but
   * never adds a message, so it returns an empty list unless Get throws.
   * Nothing calls it.
   */
  method ExpandMessageRepliesPaged<E>(url: string, pages: seq<Response<E>>)
    returns (result: Result<seq<Message>, E>, requested: seq<string>)
    requires CursorEnds(pages)
    ensures result.Success? ==> result.value == []
    ensures 0 < |requested| <= |pages| && requested[0] == url
    ensures forall i :: 0 <= i < |requested| - 1 ==>
      && pages[i].Success?
      && !IsNullOrEmpty(pages[i].value.nextLink)
      && requested[i + 1] == pages[i].value.nextLink.value
    ensures var last := |requested| - 1;
      && (pages[last].Failure? || IsNullOrEmpty(pages[last].value.nextLink))
      && (result.Failure? <==> pages[last].Failure?)
      && (result.Failure? ==> result.error == pages[last].error)
  {
    var results: seq<Message> := [];
    var nextLink := url;
    var shouldRequestNextPage := true;
    requested := [];
    var k := 0;
    while true
      invariant k < |pages|
      invariant |requested| == k && (k == 0 ==> nextLink == url) && (k > 0 ==> requested[0] == url)
      invariant forall i :: 0 <= i < k ==> pages[i].Success? && !IsNullOrEmpty(pages[i].value.nextLink)
      invariant forall i :: 0 <= i < k - 1 ==> requested[i + 1] == pages[i].value.nextLink.value
      invariant k > 0 ==> nextLink == pages[k - 1].value.nextLink.value
      decreases |pages| - k
    {
      requested := requested + [nextLink];
      var response := pages[k];
      if response.Failure? {
        result := Failure(response.error);
        return;
      }
      var res := response.value;
      if IsNullOrEmpty(res.nextLink) || !shouldRequestNextPage {
        result := Success(results);
        return;
      }
      nextLink := res.nextLink.value;
      k := k + 1;
      assert k < |pages| by {
        var j :| 0 <= j < |pages| && (pages[j].Failure? || IsNullOrEmpty(pages[j].value.nextLink));
        assert j >= k;
      }
    }
  }

  /** The messages collection of a channel. */
  function ChannelMessagesUrl(graphEndpointUrl: string, teamId: string, conversationId: string): string {
    graphEndpointUrl + "/teams/" + teamId + "/channels/" + conversationId + "/messages"
  }

  /** The replies of one channel message; the slash before the query is the source's. */
  function RepliesUrl(graphEndpointUrl: string, teamId: string, conversationId: string, root: Message): string {
    ChannelMessagesUrl(graphEndpointUrl, teamId, conversationId) + "/" + Str(root.id) + "/replies/" + MaxPageSizeQuery
  }

  /** The messages collection of a chat, first page. */
  function ChatMessagesUrl(graphEndpointUrl: string, conversationId: string): string {
    graphEndpointUrl + "/chats/" + conversationId + "/messages" + MaxPageSizeQuery
  }

  /** A result together with the URLs requested to get it. */
  datatype Fetch<+E> = Fetch(result: Result<seq<Message>, E>, requested: seq<string>)

  /** The channel's roots: the one named message, or every page from the messages collection. */
  function RootsFetch<E>(graphEndpointUrl: string, teamId: string, conversationId: string, messageId: Option<string>,
                         date: Option<int>, rootPages: seq<Response<E>>, single: Result<Message, E>): Fetch<E>
    requires IsNullOrEmpty(messageId) ==> PagingEnds(rootPages, date)
  {
    var url := ChannelMessagesUrl(graphEndpointUrl, teamId, conversationId);
    if !IsNullOrEmpty(messageId) then
      Fetch(if single.Success? then Success([single.value]) else Failure(single.error), [url + "/" + messageId.value])
    else
      Fetch(PagedResult(rootPages, date), PagedRequests(url + MaxPageSizeQuery, rootPages, date))
  }

  predicate RepliesEnd<E>(replyStreams: seq<seq<Response<E>>>) {
    forall i :: 0 <= i < |replyStreams| ==> PagingEnds(replyStreams[i], None)
  }

  /** The replies of the first t roots, each root's replies read with no cutoff, in root order. */
  function ReplyRun<E>(graphEndpointUrl: string, teamId: string, conversationId: string,
                       roots: seq<Message>, replyStreams: seq<seq<Response<E>>>, t: nat): Fetch<E>
    requires t <= |roots| && t <= |replyStreams| && RepliesEnd(replyStreams)
  {
    if t == 0 then Fetch(Success([]), [])
    else
      var prev := ReplyRun(graphEndpointUrl, teamId, conversationId, roots, replyStreams, t - 1);
      if prev.result.Failure? then prev
      else
        var replies := PagedResult(replyStreams[t - 1], None);
        var urls := prev.requested + PagedRequests(RepliesUrl(graphEndpointUrl, teamId, conversationId, roots[t - 1]), replyStreams[t - 1], None);
        if replies.Failure? then Fetch(Failure(replies.error), urls)
        else Fetch(Success(prev.result.value + replies.value), urls)
  }

  /** The responses a channel history read needs: a last page for the roots and for every root's replies. */
  predicate ChannelReady<E>(graphEndpointUrl: string, teamId: string, conversationId: string, messageId: Option<string>,
                            date: Option<int>, rootPages: seq<Response<E>>, single: Result<Message, E>,
                            replyStreams: seq<seq<Response<E>>>)
  {
    && (IsNullOrEmpty(messageId) ==> PagingEnds(rootPages, date))
    && RepliesEnd(replyStreams)
    && var roots := RootsFetch(graphEndpointUrl, teamId, conversationId, messageId, date, rootPages, single);
       roots.result.Success? ==> |roots.result.value| <= |replyStreams|
  }

  /** What GetDromTeamsApi returns: the roots, then every root's replies. */
  function ChannelHistory<E>(graphEndpointUrl: string, teamId: string, conversationId: string, messageId: Option<string>,
                             date: Option<int>, rootPages: seq<Response<E>>, single: Result<Message, E>,
                             replyStreams: seq<seq<Response<E>>>): Fetch<E>
    requires ChannelReady(graphEndpointUrl, teamId, conversationId, messageId, date, rootPages, single, replyStreams)
  {
    var roots := RootsFetch(graphEndpointUrl, teamId, conversationId, messageId, date, rootPages, single);
    if roots.result.Failure? then roots
    else
      var replies := ReplyRun(graphEndpointUrl, teamId, conversationId, roots.result.value, replyStreams, |roots.result.value|);
      Fetch(if replies.result.Failure? then Failure(replies.result.error) else Success(roots.result.value + replies.result.value),
            roots.requested + replies.requested)
  }

  /**
   * GetDromTeamsApi: reads the roots (the named message, or the paged
   * collection with the cutoff), then, for each root in order, appends its
   * replies read with no cutoff.
   */
  method GetDromTeamsApi<E>(graphEndpointUrl: string, teamId: string, conversationId: string, messageId: Option<string>,
                            date: Option<int>, rootPages: seq<Response<E>>, single: Result<Message, E>,
                            replyStreams: seq<seq<Response<E>>>)
    returns (result: Result<seq<Message>, E>, requested: seq<string>)
    requires ChannelReady(graphEndpointUrl, teamId, conversationId, messageId, date, rootPages, single, replyStreams)
    ensures Fetch(result, requested) == ChannelHistory(graphEndpointUrl, teamId, conversationId, messageId, date, rootPages, single, replyStreams)
  {
    var results: seq<Message>;
    var url := ChannelMessagesUrl(graphEndpointUrl, teamId, conversationId);
    if !IsNullOrEmpty(messageId) {
      url := url + "/" + messageId.value;
      requested := [url];
      if single.Failure? {
        result := Failure(single.error);
        return;
      }
      results := [single.value];
    } else {
      url := url + MaxPageSizeQuery;
      var page;
      page, requested := GetMessagesDetailsPaged(url, date, rootPages);
      if page.Failure? {
        result := page;
        return;
      }
      results := page.value;
    }
    assert RootsFetch(graphEndpointUrl, teamId, conversationId, messageId, date, rootPages, single) == Fetch(Success(results), requested);
    var urls;
    result, urls := ExpandReplies(graphEndpointUrl, teamId, conversationId, results, replyStreams);
    requested := requested + urls;
  }

  /**
   * The foreach of GetDromTeamsApi: appends, for each root in order, its
   * replies read with no cutoff.
   */
  method ExpandReplies<E>(graphEndpointUrl: string, teamId: string, conversationId: string,
                          roots: seq<Message>, replyStreams: seq<seq<Response<E>>>)
    returns (result: Result<seq<Message>, E>, requested: seq<string>)
    requires |roots| <= |replyStreams| && RepliesEnd(replyStreams)
    ensures var run := ReplyRun(graphEndpointUrl, teamId, conversationId, roots, replyStreams, |roots|);
      && requested == run.requested
      && (run.result.Failure? ==> result == run.result)
      && (run.result.Success? ==> result == Success(roots + run.result.value))
  {
    var results := roots;
    var messagesToExpand := roots;
    requested := [];
    var t := 0;
    while t < |messagesToExpand|
      invariant t <= |messagesToExpand|
      invariant var run := ReplyRun(graphEndpointUrl, teamId, conversationId, messagesToExpand, replyStreams, t);
        && run.result.Success?
        && results == messagesToExpand + run.result.value
        && requested == run.requested
    {
      ghost var prev := ReplyRun(graphEndpointUrl, teamId, conversationId, messagesToExpand, replyStreams, t);
      var url := RepliesUrl(graphEndpointUrl, teamId, conversationId, messagesToExpand[t]);
      var replies, urls := GetMessagesDetailsPaged(url, None, replyStreams[t]);
      ReplyRunAfter(graphEndpointUrl, teamId, conversationId, messagesToExpand, replyStreams, t, replies, urls);
      requested := requested + urls;
      if replies.Failure? {
        result := Failure(replies.error);
        ReplyRunFailureStays(graphEndpointUrl, teamId, conversationId, messagesToExpand, replyStreams, t + 1, |messagesToExpand|);
        return;
      }
      assert results + replies.value == messagesToExpand + (prev.result.value + replies.value);
      results := results + replies.value;
      t := t + 1;
    }
    result := Success(results);
  }

  /** One more root: its replies are read after the earlier roots' and added to theirs. */
  lemma ReplyRunStep<E>(graphEndpointUrl: string, teamId: string, conversationId: string,
                        roots: seq<Message>, replyStreams: seq<seq<Response<E>>>, t: nat)
    requires t < |roots| && t < |replyStreams| && RepliesEnd(replyStreams)
    requires ReplyRun(graphEndpointUrl, teamId, conversationId, roots, replyStreams, t).result.Success?
    ensures var prev := ReplyRun(graphEndpointUrl, teamId, conversationId, roots, replyStreams, t);
      var replies := PagedResult(replyStreams[t], None);
      var urls := prev.requested + PagedRequests(RepliesUrl(graphEndpointUrl, teamId, conversationId, roots[t]), replyStreams[t], None);
      ReplyRun(graphEndpointUrl, teamId, conversationId, roots, replyStreams, t + 1)
        == if replies.Failure? then Fetch(Failure(replies.error), urls) else Fetch(Success(prev.result.value + replies.value), urls)
  {
  }

  /** The read of root t's replies extends the run by its requests and its replies, or ends it with its failure. */
  lemma ReplyRunAfter<E>(graphEndpointUrl: string, teamId: string, conversationId: string,
                         roots: seq<Message>, replyStreams: seq<seq<Response<E>>>, t: nat,
                         replies: Result<seq<Message>, E>, urls: seq<string>)
    requires t < |roots| && t < |replyStreams| && RepliesEnd(replyStreams)
    requires ReplyRun(graphEndpointUrl, teamId, conversationId, roots, replyStreams, t).result.Success?
    requires replies == PagedResult(replyStreams[t], None)
    requires urls == PagedRequests(RepliesUrl(graphEndpointUrl, teamId, conversationId, roots[t]), replyStreams[t], None)
    ensures var prev := ReplyRun(graphEndpointUrl, teamId, conversationId, roots, replyStreams, t);
      var next := ReplyRun(graphEndpointUrl, teamId, conversationId, roots, replyStreams, t + 1);
      && next.requested == prev.requested + urls
      && (replies.Failure? ==> next.result == Failure(replies.error))
      && (replies.Success? ==> next.result == Success(prev.result.value + replies.value))
  {
    ReplyRunStep(graphEndpointUrl, teamId, conversationId, roots, replyStreams, t);
  }

  /** Once a reply read fails, nothing more is read and the failure is the result. */
  lemma {:induction false} ReplyRunFailureStays<E>(graphEndpointUrl: string, teamId: string, conversationId: string,
                                                   roots: seq<Message>, replyStreams: seq<seq<Response<E>>>, t: nat, u: nat)
    requires t <= u <= |roots| && u <= |replyStreams| && RepliesEnd(replyStreams)
    requires ReplyRun(graphEndpointUrl, teamId, conversationId, roots, replyStreams, t).result.Failure?
    ensures ReplyRun(graphEndpointUrl, teamId, conversationId, roots, replyStreams, u)
         == ReplyRun(graphEndpointUrl, teamId, conversationId, roots, replyStreams, t)
    decreases u
  {
    if u > t {
      ReplyRunFailureStays(graphEndpointUrl, teamId, conversationId, roots, replyStreams, t, u - 1);
    }
  }

  /** GetFromChatsApi: one paged read of the chat's messages. */
  method GetFromChatsApi<E>(graphEndpointUrl: string, conversationId: string, date: Option<int>, pages: seq<Response<E>>)
    returns (result: Result<seq<Message>, E>, requested: seq<string>)
    requires PagingEnds(pages, date)
    ensures result == PagedResult(pages, date)
    ensures requested == PagedRequests(ChatMessagesUrl(graphEndpointUrl, conversationId), pages, date)
  {
    result, requested := GetMessagesDetailsPaged(ChatMessagesUrl(graphEndpointUrl, conversationId), date, pages);
  }

  /** A cutoff strictly later than the current time. */
  predicate InFuture(date: Option<int>, now: int) {
    date.Some? && date.value > now
  }

  /**
   * GetConversationHistory: nothing is read for a cutoff in the future; an
   * empty team id means a chat, any other a channel. `now` stands for
   * DateTimeOffset.Now.
   */
  method GetConversationHistory<E>(now: int, teamId: Option<string>, conversationId: Option<string>, messageId: Option<string>,
                                   date: Option<int>, graphEndpointUrl: string,
                                   pages: seq<Response<E>>, single: Result<Message, E>, replyStreams: seq<seq<Response<E>>>)
    returns (result: Result<seq<Message>, E>, requested: seq<string>)
    requires !InFuture(date, now) && IsNullOrEmpty(teamId) ==> PagingEnds(pages, date)
    requires !InFuture(date, now) && !IsNullOrEmpty(teamId) ==>
      ChannelReady(graphEndpointUrl, Str(teamId), Str(conversationId), messageId, date, pages, single, replyStreams)
    ensures InFuture(date, now) ==> result == Success([]) && requested == []
    ensures !InFuture(date, now) && IsNullOrEmpty(teamId) ==>
      && result == PagedResult(pages, date)
      && requested == PagedRequests(ChatMessagesUrl(graphEndpointUrl, Str(conversationId)), pages, date)
    ensures !InFuture(date, now) && !IsNullOrEmpty(teamId) ==>
      Fetch(result, requested) == ChannelHistory(graphEndpointUrl, Str(teamId), Str(conversationId), messageId, date, pages, single, replyStreams)
    ensures !InFuture(date, now) ==>
      && |requested| > 0
      && (IsNullOrEmpty(teamId) <==> requested[0] == ChatMessagesUrl(graphEndpointUrl, Str(conversationId)))
  {
    if InFuture(date, now) {
      return Success([]), [];
    }
    if IsNullOrEmpty(teamId) {
      result, requested := GetFromChatsApi(graphEndpointUrl, Str(conversationId), date, pages);
      PagedRequestChain(ChatMessagesUrl(graphEndpointUrl, Str(conversationId)), pages, date);
    } else {
      result, requested := GetDromTeamsApi(graphEndpointUrl, Str(teamId), Str(conversationId), messageId, date, pages, single, replyStreams);
      ChannelFirstRequest(graphEndpointUrl, Str(teamId), Str(conversationId), messageId, date, pages, single, replyStreams);
    }
  }

  /** A channel read starts with a request to the channel's messages collection, never to a chat's. */
  lemma ChannelFirstRequest<E>(graphEndpointUrl: string, teamId: string, conversationId: string, messageId: Option<string>,
                               date: Option<int>, rootPages: seq<Response<E>>, single: Result<Message, E>,
                               replyStreams: seq<seq<Response<E>>>)
    requires ChannelReady(graphEndpointUrl, teamId, conversationId, messageId, date, rootPages, single, replyStreams)
    ensures var r := ChannelHistory(graphEndpointUrl, teamId, conversationId, messageId, date, rootPages, single, replyStreams).requested;
      && |r| > 0
      && |r[0]| > |graphEndpointUrl| + 1
      && r[0][..|graphEndpointUrl| + 2] == graphEndpointUrl + "/t"
      && r[0] != ChatMessagesUrl(graphEndpointUrl, conversationId)
  {
    var base := ChannelMessagesUrl(graphEndpointUrl, teamId, conversationId);
    var r := ChannelHistory(graphEndpointUrl, teamId, conversationId, messageId, date, rootPages, single, replyStreams).requested;
    var roots := RootsFetch(graphEndpointUrl, teamId, conversationId, messageId, date, rootPages, single);
    var first: string;
    if !IsNullOrEmpty(messageId) {
      first := base + "/" + messageId.value;
    } else {
      PagedRequestChain(base + MaxPageSizeQuery, rootPages, date);
      first := base + MaxPageSizeQuery;
    }
    assert roots.requested[0] == first;
    assert r[0] == first;
    assert first == graphEndpointUrl + "/t" + (first[|graphEndpointUrl| + 2..]);
    var chat := ChatMessagesUrl(graphEndpointUrl, conversationId);
    assert chat[|graphEndpointUrl| + 1] == 'c';
    assert first[|graphEndpointUrl| + 1] == 't';
  }

  /**
   * Replies are never cut off: a message is among the replies read exactly
   * when it is on a page read for one of the roots, whatever its date.
   */
  lemma {:induction false} ReplyRunMember<E>(graphEndpointUrl: string, teamId: string, conversationId: string,
                                             roots: seq<Message>, replyStreams: seq<seq<Response<E>>>, t: nat, m: Message)
    requires t <= |roots| && t <= |replyStreams| && RepliesEnd(replyStreams)
    requires ReplyRun(graphEndpointUrl, teamId, conversationId, roots, replyStreams, t).result.Success?
    ensures m in ReplyRun(graphEndpointUrl, teamId, conversationId, roots, replyStreams, t).result.value
        <==> exists i :: 0 <= i < t && OnPageRead(replyStreams[i], None, m)
  {
    if t > 0 {
      var s := replyStreams[t - 1];
      assert PagingEnds(s, None);
      ReplyRunMember(graphEndpointUrl, teamId, conversationId, roots, replyStreams, t - 1, m);
      PagedMember(s, None, m);
    }
  }

  /**
   * In a channel the result is the roots followed by their replies; with a
   * cutoff and no named message, every root is at or after the cutoff.
   */
  lemma ChannelRootsFirst<E>(graphEndpointUrl: string, teamId: string, conversationId: string, messageId: Option<string>,
                             date: Option<int>, rootPages: seq<Response<E>>, single: Result<Message, E>,
                             replyStreams: seq<seq<Response<E>>>)
    requires ChannelReady(graphEndpointUrl, teamId, conversationId, messageId, date, rootPages, single, replyStreams)
    requires ChannelHistory(graphEndpointUrl, teamId, conversationId, messageId, date, rootPages, single, replyStreams).result.Success?
    ensures var roots := RootsFetch(graphEndpointUrl, teamId, conversationId, messageId, date, rootPages, single).result;
      var all := ChannelHistory(graphEndpointUrl, teamId, conversationId, messageId, date, rootPages, single, replyStreams).result.value;
      && roots.Success?
      && |roots.value| <= |all|
      && all[..|roots.value|] == roots.value
      && (!IsNullOrEmpty(messageId) ==> roots.value == [single.value])
      && (IsNullOrEmpty(messageId) && date.Some? ==>
            forall i :: 0 <= i < |roots.value| ==> roots.value[i].createdDateTime >= date.value)
  {
    var roots := RootsFetch(graphEndpointUrl, teamId, conversationId, messageId, date, rootPages, single).result;
    if IsNullOrEmpty(messageId) && date.Some? {
      forall i | 0 <= i < |roots.value|
        ensures roots.value[i].createdDateTime >= date.value
      {
        PagedAtOrAfter(rootPages, date.value, roots.value[i]);
      }
    }
  }
}
