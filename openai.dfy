/**
 * The Responses-API wrapper: the guards of `createStructuredOutput` and the
 * text extraction of `extractOutputText`. The HTTP exchange and `JSON.parse`
 * are function parameters.
 */
module OpenAI {
  import opened Wrappers
  import opened Text

  /**
   * One content fragment of an output item: its `type` (the empty string
   * when absent) and its `text` when that is a string.
   */
  datatype Fragment = Fragment(kind: string, text: Option<string>)

  /** An output item; `content` is `None` when it is not an array. */
  datatype Item = Item(content: Option<seq<Fragment>>)

  /**
   * A decoded response body: `output_text` when it is a string, and `output`
   * when it is an array.
   */
  datatype Envelope = Envelope(outputText: Option<string>, output: Option<seq<Item>>)

  const RefusalMessage := "Model refusal"
  const NoOutputMessage := "No output text found in OpenAI response"

  function Fragments(item: Item): seq<Fragment> {
    item.content.GetOr([])
  }

  function Items(env: Envelope): seq<Item> {
    env.output.GetOr([])
  }

  /** What one fragment contributes to `chunks`. */
  function FragmentChunk(f: Fragment): seq<string> {
    if f.kind == "output_text" && f.text.Some? then [f.text.value] else []
  }

  /** The chunks of a fragment list, in order. */
  function FragmentChunks(fs: seq<Fragment>): seq<string> {
    if fs == [] then [] else FragmentChunks(fs[..|fs| - 1]) + FragmentChunk(fs[|fs| - 1])
  }

  /** The chunks of all items, item by item. */
  function Chunks(items: seq<Item>): seq<string> {
    if items == [] then [] else Chunks(items[..|items| - 1]) + FragmentChunks(Fragments(items[|items| - 1]))
  }

  /** Some fragment of some item is a refusal. */
  predicate Refuses(items: seq<Item>) {
    exists i, j :: 0 <= i < |items| && 0 <= j < |Fragments(items[i])| && Fragments(items[i])[j].kind == "refusal"
  }

  /** What `extractOutputText` returns (`Success`) or throws (`Failure`). */
  function ExtractSpec(env: Envelope): (r: Result<string, string>)
    ensures env.outputText.Some? ==> r == Success(env.outputText.value)
    ensures env.outputText.None? && Refuses(Items(env)) ==> r == Failure(RefusalMessage)
    ensures env.outputText.None? && r.Success? ==> Chunks(Items(env)) != [] && r.value == Join(Chunks(Items(env)), "")
    ensures r.Failure? ==> r.error in {RefusalMessage, NoOutputMessage}
  {
    if env.outputText.Some? then Success(env.outputText.value)
    else if Refuses(Items(env)) then Failure(RefusalMessage)
    else if Chunks(Items(env)) == [] then Failure(NoOutputMessage)
    else Success(Join(Chunks(Items(env)), ""))
  }

  /**
   * The inner loop of `extractOutputText` over one item's content: it pushes
   * each `output_text` fragment's text and stops at the first refusal.
   */
  method CollectFragments(start: seq<string>, content: seq<Fragment>) returns (chunks: seq<string>, refused: bool)
    ensures refused <==> exists k :: 0 <= k < |content| && content[k].kind == "refusal"
    ensures !refused ==> chunks == start + FragmentChunks(content)
  {
    chunks := start;
    var j := 0;
    while j < |content|
      invariant 0 <= j <= |content|
      invariant chunks == start + FragmentChunks(content[..j])
      invariant forall k :: 0 <= k < j ==> content[k].kind != "refusal"
    {
      var part := content[j];
      if part.kind == "output_text" && part.text.Some? {
        chunks := chunks + [part.text.value];
      }
      if part.kind == "refusal" {
        return chunks, true;
      }
      PrefixStep(content, j);
      j := j + 1;
    }
    assert content[..j] == content;
    refused := false;
  }

  /** `extractOutputText`: the nested loops collect the chunks and stop at the first refusal. */
  method ExtractOutputText(env: Envelope) returns (r: Result<string, string>)
    ensures r == ExtractSpec(env)
  {
    if env.outputText.Some? {
      return Success(env.outputText.value);
    }
    var output := Items(env);
    var chunks: seq<string> := [];
    var i := 0;
    while i < |output|
      invariant 0 <= i <= |output|
      invariant chunks == Chunks(output[..i])
      invariant !Refuses(output[..i])
    {
      var content := Fragments(output[i]);
      var refused;
      chunks, refused := CollectFragments(chunks, content);
      if refused {
        ghost var k :| 0 <= k < |content| && content[k].kind == "refusal";
        assert Fragments(output[i])[k].kind == "refusal";
        return Failure(RefusalMessage);
      }
      PrefixStep(output, i);
      assert Chunks(output[..i + 1]) == Chunks(output[..i]) + FragmentChunks(content);
      ghost var seen := output[..i + 1];
      assert !Refuses(seen) by {
        forall a, b | 0 <= a < |seen| && 0 <= b < |Fragments(seen[a])|
          ensures Fragments(seen[a])[b].kind != "refusal"
        {
          if a < i {
            assert seen[a] == output[..i][a];
          }
        }
      }
      i := i + 1;
    }
    assert output[..i] == output;
    if |chunks| == 0 {
      return Failure(NoOutputMessage);
    }
    return Success(Join(chunks, ""));
  }

  // ---------------------------------------------------------------------
  // Properties of the extraction
  // ---------------------------------------------------------------------

  lemma {:induction false} FragmentChunksAppend(a: seq<Fragment>, b: seq<Fragment>)
    ensures FragmentChunks(a + b) == FragmentChunks(a) + FragmentChunks(b)
    decreases |b|
  {
    if b == [] {
      assert a + b == a;
    } else {
      assert (a + b)[..|a + b| - 1] == a + b[..|b| - 1];
      FragmentChunksAppend(a, b[..|b| - 1]);
    }
  }

  /** Chunks of consecutive item lists concatenate: the order of items is the order of text. */
  lemma {:induction false} ChunksAppend(a: seq<Item>, b: seq<Item>)
    ensures Chunks(a + b) == Chunks(a) + Chunks(b)
    decreases |b|
  {
    if b == [] {
      assert a + b == a;
    } else {
      var ab, init, last := a + b, b[..|b| - 1], b[|b| - 1];
      assert ab[..|ab| - 1] == a + init;
      assert ab[|ab| - 1] == last;
      var tail := FragmentChunks(Fragments(last));
      assert Chunks(ab) == Chunks(a + init) + tail;
      assert Chunks(b) == Chunks(init) + tail;
      ChunksAppend(a, init);
      assert Chunks(a) + Chunks(init) + tail == Chunks(a) + (Chunks(init) + tail);
    }
  }

  /** A chunk is exactly the text of some `output_text` fragment that carries string text. */
  lemma {:induction false} FragmentChunksMembers(fs: seq<Fragment>, t: string)
    ensures t in FragmentChunks(fs) <==>
      exists j :: 0 <= j < |fs| && fs[j].kind == "output_text" && fs[j].text == Some(t)
  {
    if fs != [] {
      var n := |fs| - 1;
      FragmentChunksMembers(fs[..n], t);
      assert forall j :: 0 <= j < n ==> fs[..n][j] == fs[j];
      if fs[n].kind == "output_text" && fs[n].text == Some(t) {
        assert t in FragmentChunk(fs[n]);
      }
    }
  }

  /** The text collected from items is drawn from their `output_text` fragments and from nowhere else. */
  lemma {:induction false} ChunksMembers(items: seq<Item>, t: string)
    ensures t in Chunks(items) <==>
      exists i, j :: 0 <= i < |items| && 0 <= j < |Fragments(items[i])|
        && Fragments(items[i])[j].kind == "output_text" && Fragments(items[i])[j].text == Some(t)
  {
    if items != [] {
      var n := |items| - 1;
      var init := items[..n];
      var last := Fragments(items[n]);
      assert Chunks(items) == Chunks(init) + FragmentChunks(last);
      ChunksMembers(init, t);
      FragmentChunksMembers(last, t);
      if t in Chunks(items) {
        if t in Chunks(init) {
          var i, j :| 0 <= i < |init| && 0 <= j < |Fragments(init[i])|
            && Fragments(init[i])[j].kind == "output_text" && Fragments(init[i])[j].text == Some(t);
          assert init[i] == items[i];
        } else {
          var j :| 0 <= j < |last| && last[j].kind == "output_text" && last[j].text == Some(t);
          assert Fragments(items[n])[j].text == Some(t);
        }
      }
      if exists i, j ::
          && 0 <= i < |items| && 0 <= j < |Fragments(items[i])|
          && Fragments(items[i])[j].kind == "output_text" && Fragments(items[i])[j].text == Some(t)
      {
        var i, j :| 0 <= i < |items| && 0 <= j < |Fragments(items[i])|
          && Fragments(items[i])[j].kind == "output_text" && Fragments(items[i])[j].text == Some(t);
        if i < n {
          assert init[i] == items[i];
          assert t in Chunks(init);
        } else {
          assert t in FragmentChunks(last);
        }
      }
    }
  }

  /** A refusal anywhere wins over text collected from earlier fragments. */
  lemma RefusalOverridesText(text: string)
    ensures ExtractSpec(Envelope(None, Some([Item(Some([Fragment("output_text", Some(text)), Fragment("refusal", None)]))])))
         == Failure(RefusalMessage)
  {
    var items := [Item(Some([Fragment("output_text", Some(text)), Fragment("refusal", None)]))];
    assert Fragments(items[0])[1].kind == "refusal";
  }

  /** An `output` that is not an array counts as no items. */
  lemma MissingOutputHasNoText()
    ensures ExtractSpec(Envelope(None, None)) == Failure(NoOutputMessage)
  {
  }

  /** The number of chunks decides, not their content: a single empty chunk is the empty text. */
  lemma EmptyChunkIsText()
    ensures ExtractSpec(Envelope(None, Some([Item(Some([Fragment("output_text", Some(""))]))]))) == Success("")
  {
    var items := [Item(Some([Fragment("output_text", Some(""))]))];
    var fs := Fragments(items[0]);
    assert fs[..0] == [];
    assert FragmentChunks(fs) == [""];
    assert items[..0] == [];
    assert Chunks(items) == [""];
    assert !Refuses(items) by {
      forall i, j | 0 <= i < |items| && 0 <= j < |Fragments(items[i])|
        ensures Fragments(items[i])[j].kind != "refusal"
      {
      }
    }
  }

  // ---------------------------------------------------------------------
  // createStructuredOutput
  // ---------------------------------------------------------------------

  datatype Message = Message(role: string, content: string)

  /** The caller's arguments; `None` means the parameter was omitted. */
  datatype StructuredRequest<S> = StructuredRequest(
    model: string, system: string, user: string, schema: S, maxOutputTokens: Option<int>)

  /** The request that goes to the provider, with the bearer header. */
  datatype Payload<S> = Payload(
    authorization: string, model: string, input: seq<Message>,
    formatType: string, strict: bool, schema: S, maxOutputTokens: int)

  /** The provider's reply: `response.ok`, `data.error.message` and the decoded body. */
  datatype Reply = Reply(ok: bool, errorMessage: Option<string>, body: Envelope)

  /** What one call does: the request it sends, if any, and its value or the message it throws. */
  datatype Call<S, T> = Call(sent: Option<Payload<S>>, result: Result<T, string>)

  const MissingKeyMessage := "Missing OPENAI_API_KEY"
  const RequestFailedMessage := "OpenAI API request failed"
  const DefaultMaxOutputTokens := 1200

  function BuildPayload<S>(apiKey: string, req: StructuredRequest<S>): (p: Payload<S>)
    ensures p.authorization == "Bearer " + apiKey
    ensures p.input == [Message("system", req.system), Message("user", req.user)]
    ensures p.model == req.model && p.schema == req.schema && p.strict && p.formatType == "json_schema"
    ensures p.maxOutputTokens == req.maxOutputTokens.GetOr(DefaultMaxOutputTokens)
  {
    Payload("Bearer " + apiKey, req.model,
      [Message("system", req.system), Message("user", req.user)],
      "json_schema", true, req.schema, req.maxOutputTokens.GetOr(DefaultMaxOutputTokens))
  }

  /** `createStructuredOutput`: `apiKey` is the environment variable, `send` the HTTP exchange, `parse` `JSON.parse`. */
  function CreateStructuredOutput<S, T>(
    apiKey: Option<string>, req: StructuredRequest<S>,
    send: Payload<S> -> Reply, parse: string -> Result<T, string>): (c: Call<S, T>)
    ensures apiKey.None? || apiKey == Some("") <==> c.sent.None?
    ensures c.sent.None? ==> c.result == Failure(MissingKeyMessage)
    ensures c.sent.Some? ==> c.sent.value == BuildPayload(apiKey.value, req)
    ensures c.sent.Some? && !send(c.sent.value).ok ==>
      c.result == Failure(send(c.sent.value).errorMessage.GetOr(RequestFailedMessage))
    ensures c.result.Success? ==>
      && c.sent.Some? && send(c.sent.value).ok
      && ExtractSpec(send(c.sent.value).body).Success?
      && parse(ExtractSpec(send(c.sent.value).body).value) == c.result
  {
    if apiKey.None? || apiKey.value == "" then Call(None, Failure(MissingKeyMessage))
    else
      var payload := BuildPayload(apiKey.value, req);
      var reply := send(payload);
      if !reply.ok then Call(Some(payload), Failure(reply.errorMessage.GetOr(RequestFailedMessage)))
      else match ExtractSpec(reply.body)
        case Failure(m) => Call(Some(payload), Failure(m))
        case Success(text) => Call(Some(payload), parse(text))
  }
}
