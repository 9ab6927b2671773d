/** The two callbacks the research agents register: a logging hook that runs
    before each agent, and a safety guardrail that runs before each model
    call. A callback returns `None` to let the agent or the model proceed, or
    a replacement `Content` that takes the place of the model's answer.

    The duck-typed request objects become plain datatypes: an attribute that
    `hasattr` might not find, or that may be `None`, is an `Option`. */
module Callbacks {

  import opened Wrappers
  import opened Text

  /** What the callbacks read from the callback context. */
  datatype CallbackContext = CallbackContext(agentName: string)

  datatype Part = Part(text: Option<string>)

  datatype Content = Content(role: Option<string>, parts: Option<seq<Part>>)

  datatype LlmRequest = LlmRequest(contents: Option<seq<Content>>)

  /** The marker whose presence, in any case, blocks a request. */
  const BlockMarker: string := "BLOCKED"

  const BlockedMessage: string := "Request blocked by safety guardrail."

  /** `before_agent_callback`: logs the agent's name (a side effect not
      modelled) and always lets the agent proceed. */
  function BeforeAgentCallback(context: CallbackContext): (r: Option<Content>)
    ensures r == None
  {
    None
  }

  /** The contents the guardrail scans: none for a missing request, and
      `llm_request.contents or []` otherwise. */
  function RequestContents(request: Option<LlmRequest>): seq<Content> {
    match request
    case None => []
    case Some(req) => req.contents.GetOr([])
  }

  /** `content.parts or []`, and nothing when the attribute is missing. */
  function ContentParts(content: Content): seq<Part> {
    content.parts.GetOr([])
  }

  /** A part trips the guardrail when it has a non-empty text whose
      upper-cased form contains the marker; a text shorter than the marker
      never does. */
  predicate PartTrips(part: Part)
    ensures PartTrips(part) ==> part.text.Some? && |part.text.value| >= |BlockMarker|
  {
    part.text.Some? && part.text.value != "" && Contains(ToUpper(part.text.value), BlockMarker)
  }

  /** Part `j` of content `i` of `contents` trips the guardrail. */
  predicate TripsAt(contents: seq<Content>, i: int, j: int) {
    0 <= i < |contents| && 0 <= j < |ContentParts(contents[i])| && PartTrips(ContentParts(contents[i])[j])
  }

  /** The text of part `j` of content `i`, empty when there is no such part
      or it has no text. */
  function TextAt(contents: seq<Content>, i: int, j: int): string {
    if 0 <= i < |contents| && 0 <= j < |ContentParts(contents[i])| then
      ContentParts(contents[i])[j].text.GetOr("")
    else ""
  }

  /** The inner loop: some part, in order, trips the guardrail. */
  function ScanParts(parts: seq<Part>): (found: bool)
    ensures found <==> exists j :: 0 <= j < |parts| && PartTrips(parts[j])
    decreases |parts|
  {
    if |parts| == 0 then false
    else if PartTrips(parts[0]) then true
    else
      assert forall j :: 0 < j < |parts| ==> parts[j] == parts[1..][j - 1];
      ScanParts(parts[1..])
  }

  /** The outer loop: some part of some content, in order, trips the guardrail. */
  function ScanContents(contents: seq<Content>): (found: bool)
    ensures found <==> exists i, j :: TripsAt(contents, i, j)
    decreases |contents|
  {
    if |contents| == 0 then false
    else if ScanParts(ContentParts(contents[0])) then
      var j :| 0 <= j < |ContentParts(contents[0])| && PartTrips(ContentParts(contents[0])[j]);
      assert TripsAt(contents, 0, j);
      true
    else
      var rest := contents[1..];
      assert forall i, j :: TripsAt(contents, i, j) <==> i > 0 && TripsAt(rest, i - 1, j) by {
        forall i, j ensures TripsAt(contents, i, j) <==> i > 0 && TripsAt(rest, i - 1, j) {
          if 0 < i < |contents| {
            assert contents[i] == rest[i - 1];
          }
        }
      }
      assert (exists i, j :: TripsAt(rest, i, j)) ==> exists i, j :: TripsAt(contents, i, j) by {
        if exists i, j :: TripsAt(rest, i, j) {
          var i, j :| TripsAt(rest, i, j);
          assert TripsAt(contents, i + 1, j);
        }
      }
      ScanContents(rest)
  }

  /** The replacement the guardrail returns. */
  function BlockedReply(): (c: Content)
    ensures c.role == Some("model")
    ensures c.parts.Some? && |c.parts.value| == 1 && c.parts.value[0].text == Some(BlockedMessage)
  {
    Content(Some("model"), Some([Part(Some(BlockedMessage))]))
  }

  /** The request is to be blocked: some part of some content trips the guardrail. */
  ghost predicate Blocked(request: Option<LlmRequest>) {
    exists i, j :: TripsAt(RequestContents(request), i, j)
  }

  /** `before_model_callback`: the fixed replacement when some part of some
      content of the request trips the guardrail, and `None` otherwise. */
  function BeforeModelCallback(context: CallbackContext, request: Option<LlmRequest>): (r: Option<Content>)
    ensures r.Some? <==> Blocked(request)
    ensures r.Some? ==> r.value == BlockedReply()
  {
    if ScanContents(RequestContents(request)) then Some(BlockedReply()) else None
  }

  /** The guardrail does not look at the callback context. */
  lemma BeforeModelIgnoresContext(c1: CallbackContext, c2: CallbackContext, request: Option<LlmRequest>)
    ensures BeforeModelCallback(c1, request) == BeforeModelCallback(c2, request)
  {
  }

  /** A missing request, missing or empty contents, and requests whose parts
      all lack a non-empty text pass the guardrail. */
  lemma ProceedWithoutText(context: CallbackContext, request: Option<LlmRequest>)
    requires forall i, j :: TextAt(RequestContents(request), i, j) == ""
    ensures BeforeModelCallback(context, request) == None
  {
    var contents := RequestContents(request);
    forall i, j ensures !TripsAt(contents, i, j) {
      assert TextAt(contents, i, j) == "";
    }
  }

  lemma ProceedOnMissingContents(context: CallbackContext)
    ensures BeforeModelCallback(context, None) == None
    ensures BeforeModelCallback(context, Some(LlmRequest(None))) == None
    ensures BeforeModelCallback(context, Some(LlmRequest(Some([])))) == None
  {
  }

  /** The seven characters of `text` from index `i` spell the marker in some
      mix of ASCII cases. */
  predicate MarkerVariantAt(text: string, i: int) {
    0 <= i && i + |BlockMarker| <= |text| && EqualIgnoringCase(text[i..i + |BlockMarker|], BlockMarker)
  }

  /** A text trips the guardrail exactly when some seven consecutive
      characters of it spell the marker in any mix of ASCII cases. */
  lemma {:induction false} TextTripsIgnoringCase(text: string)
    ensures PartTrips(Part(Some(text))) <==> exists i :: MarkerVariantAt(text, i)
  {
    var n := |BlockMarker|;
    assert ToUpper(BlockMarker) == BlockMarker by {
      assert ToUpper("BLOCKED") == "BLOCKED";
    }
    forall i | 0 <= i && i + n <= |text|
      ensures OccursAt(ToUpper(text), BlockMarker, i) <==> MarkerVariantAt(text, i)
    {
      ToUpperSlice(text, i, i + n);
    }
    if PartTrips(Part(Some(text))) {
      var i :| OccursAt(ToUpper(text), BlockMarker, i);
      assert MarkerVariantAt(text, i);
    }
    if exists i :: MarkerVariantAt(text, i) {
      var i :| MarkerVariantAt(text, i);
      assert OccursAt(ToUpper(text), BlockMarker, i);
    }
  }

  /** Lower-case and mixed-case markers trip the guardrail too. */
  lemma LowerAndMixedCaseTrip()
    ensures PartTrips(Part(Some("blocked")))
    ensures PartTrips(Part(Some("Blocked")))
  {
    assert ToUpper("blocked") == "BLOCKED";
    assert OccursAt(ToUpper("blocked"), BlockMarker, 0);
    assert ToUpper("Blocked") == "BLOCKED";
    assert OccursAt(ToUpper("Blocked"), BlockMarker, 0);
  }

  /** A tripping part in any content blocks the request, wherever that
      content stands in the list: the scan covers every content, not only the
      last user message. */
  lemma BlockedAnywhere(context: CallbackContext, before: seq<Content>, content: Content, after: seq<Content>, j: int)
    requires 0 <= j < |ContentParts(content)| && PartTrips(ContentParts(content)[j])
    ensures BeforeModelCallback(context, Some(LlmRequest(Some(before + [content] + after)))) == Some(BlockedReply())
  {
    var contents := before + [content] + after;
    assert contents[|before|] == content;
    assert TripsAt(contents, |before|, j);
  }

  /** Adding contents before or after never unblocks a blocked request, and
      a request is blocked exactly when one of its two halves is. */
  lemma BlockedSplit(contents1: seq<Content>, contents2: seq<Content>)
    ensures Blocked(Some(LlmRequest(Some(contents1 + contents2)))) <==>
      Blocked(Some(LlmRequest(Some(contents1)))) || Blocked(Some(LlmRequest(Some(contents2))))
  {
    var all := contents1 + contents2;
    assert RequestContents(Some(LlmRequest(Some(all)))) == all;
    assert RequestContents(Some(LlmRequest(Some(contents1)))) == contents1;
    assert RequestContents(Some(LlmRequest(Some(contents2)))) == contents2;
    if Blocked(Some(LlmRequest(Some(all)))) {
      var i, j :| TripsAt(all, i, j);
      if i < |contents1| {
        assert all[i] == contents1[i];
        assert TripsAt(contents1, i, j);
      } else {
        assert all[i] == contents2[i - |contents1|];
        assert TripsAt(contents2, i - |contents1|, j);
      }
    }
    if Blocked(Some(LlmRequest(Some(contents1)))) {
      var i, j :| TripsAt(contents1, i, j);
      assert all[i] == contents1[i];
      assert TripsAt(all, i, j);
    }
    if Blocked(Some(LlmRequest(Some(contents2)))) {
      var i, j :| TripsAt(contents2, i, j);
      assert all[i + |contents1|] == contents2[i];
      assert TripsAt(all, i + |contents1|, j);
    }
  }
}
