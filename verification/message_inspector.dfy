/**
 The message inspector installed on every client: it prepends the configured
 headers to each outgoing request and marks WS-Security reply headers as
 understood so that the transport does not reject the reply.
 */
module MessageInspector {
  import opened Text

  /** The OASIS WS-Security 1.0 "secext" schema namespace. */
  const WsseNamespace: string := "http://docs.oasis-open.org/wss/2004/01/oasis-200401-wss-wssecurity-secext-1.0.xsd"

  /** An outgoing SOAP message; only its header list is touched by the inspector. */
  datatype Message<H> = Message(headers: seq<H>, body: string)

  function Reversed<T>(s: seq<T>): (r: seq<T>)
    ensures |r| == |s|
    ensures forall i :: 0 <= i < |s| ==> r[i] == s[|s| - 1 - i]
  {
    if |s| == 0 then [] else [s[|s| - 1]] + Reversed(s[..|s| - 1])
  }

  /** `BeforeSendRequest`: each configured header, in list order, is inserted at index 0
      of the request's headers; the request itself is returned as correlation state. */
  method BeforeSendRequest<H>(configured: seq<H>, request: Message<H>)
    returns (sent: Message<H>, correlation: Message<H>)
    ensures sent.headers == Reversed(configured) + request.headers
    ensures forall i :: 0 <= i < |configured| ==> sent.headers[i] == configured[|configured| - 1 - i]
    ensures sent.headers[|configured|..] == request.headers
    ensures sent.body == request.body
    ensures |configured| == 0 ==> sent == request
    ensures correlation == sent
  {
    sent := request;
    var i := 0;
    while i < |configured|
      invariant 0 <= i <= |configured|
      invariant sent.headers == Reversed(configured[..i]) + request.headers
      invariant sent.body == request.body
    {
      assert configured[..i + 1][..i] == configured[..i];
      sent := sent.(headers := [configured[i]] + sent.headers);
      i := i + 1;
    }
    assert configured[..|configured|] == configured;
    correlation := sent;
  }

  /** A header of a received reply. */
  datatype ReplyHeader = ReplyHeader(name: string, ns: string)

  /** A reply: its headers, and the headers the transport is told were understood. */
  datatype Reply = Reply(headers: seq<ReplyHeader>, understood: seq<ReplyHeader>)

  /** The reply-header test: the name contains "Security" (case-sensitive) and the
      namespace contains the WS-Security secext 1.0 URI. */
  predicate MarksUnderstood(h: ReplyHeader)
  {
    Contains(h.name, "Security") && Contains(h.ns, WsseNamespace)
  }

  /** The headers of `hs` that pass the test, in reply order. */
  function UnderstoodAmong(hs: seq<ReplyHeader>): (r: seq<ReplyHeader>)
    ensures |r| <= |hs|
    ensures forall h :: h in r <==> h in hs && MarksUnderstood(h)
  {
    if |hs| == 0 then []
    else
      var rest := UnderstoodAmong(hs[1..]);
      assert forall h :: h in hs <==> h == hs[0] || h in hs[1..];
      if MarksUnderstood(hs[0]) then [hs[0]] + rest else rest
  }

  /** `AfterReceiveReply`: every passing header is added to the understood list; the
      reply's own header list is left as it was. */
  function AfterReceiveReply(reply: Reply): (r: Reply)
    ensures r.headers == reply.headers
    ensures |reply.understood| <= |r.understood| && r.understood[..|reply.understood|] == reply.understood
    ensures forall h :: h in r.understood <==>
      h in reply.understood || (h in reply.headers && MarksUnderstood(h))
  {
    var added := UnderstoodAmong(reply.headers);
    var r := Reply(reply.headers, reply.understood + added);
    assert r.understood[..|reply.understood|] == reply.understood;
    r
  }

  /** The name test is case-sensitive and the namespace must carry the secext URI. */
  lemma UnderstoodExamples()
    ensures MarksUnderstood(ReplyHeader("Security", WsseNamespace))
    ensures !MarksUnderstood(ReplyHeader("security", WsseNamespace))
    ensures !MarksUnderstood(ReplyHeader("Security", "http://www.w3.org/2005/08/addressing"))
  {
    assert OccursAt("Security", "Security", 0);
    assert OccursAt(WsseNamespace, WsseNamespace, 0);
    assert "security"[0..8] != "Security" by {
      assert "security"[0..8][0] != "Security"[0];
    }
    assert !Contains("http://www.w3.org/2005/08/addressing", WsseNamespace);
  }
}
