/**
 * The `process-receipt` edge function: it sends the receipt image to a vision
 * model, strips markdown code fences from the model's reply, parses what is
 * left as JSON and keeps only the well-formed `{name, price}` entries, each
 * normalised to a receipt item (an id, the trimmed name, the price rounded to
 * the cent, nobody assigned).
 *
 * The model call, `JSON.parse` and `Math.random` are parameters: the
 * completion the model returned, a parser that gives `None` where
 * `JSON.parse` throws, and the random suffix generated for the k-th item.
 */
module ProcessReceipt {
  import opened Common
  import opened Text
  import opened Js
  import opened Seqs

  // ---------------------------------------------------------------------------
  // Code-fence cleaning
  // ---------------------------------------------------------------------------

  const Fence: string := "```"
  const JsonFence: string := "```json"

  /** `pat` occurs in `s` at position `i`. */
  predicate OccursAt(s: string, i: nat, pat: string) {
    i + |pat| <= |s| && s[i..i + |pat|] == pat
  }

  predicate Contains(s: string, pat: string) {
    exists i: nat | i <= |s| :: OccursAt(s, i, pat)
  }

  /**
   * `s.replace(/<pat>\n?/g, '')`: scanning from the left, every occurrence of
   * `pat` that does not overlap an earlier one is removed, together with one
   * newline directly after it.
   */
  function StripAll(s: string, pat: string): (r: string)
    requires |pat| > 0
    ensures |r| <= |s|
    decreases |s|
  {
    if s == [] then []
    else if OccursAt(s, 0, pat) then
      var rest := s[|pat|..];
      if rest != [] && rest[0] == '\n' then StripAll(rest[1..], pat) else StripAll(rest, pat)
    else [s[0]] + StripAll(s[1..], pat)
  }

  /** The cleaning of the model's reply before `JSON.parse`. */
  function Clean(reply: string): (r: string)
    ensures IsTrimmed(r) && |r| <= |reply|
  {
    Trim(StripAll(StripAll(reply, JsonFence), Fence))
  }

  /** Text in which `pat` does not occur passes through `StripAll` unchanged. */
  lemma {:induction false} StripAllWithoutOccurrence(s: string, pat: string)
    requires |pat| > 0 && !Contains(s, pat)
    ensures StripAll(s, pat) == s
    decreases |s|
  {
    if s != [] {
      assert !OccursAt(s, 0, pat);
      forall i: nat | OccursAt(s[1..], i, pat) ensures OccursAt(s, i + 1, pat) {
        assert s[i + 1..i + 1 + |pat|] == s[1..][i..i + |pat|];
      }
      StripAllWithoutOccurrence(s[1..], pat);
      assert s == [s[0]] + s[1..];
    }
  }

  /** Every occurrence of "```json" is also one of "```". */
  lemma JsonFenceIsFence(s: string)
    requires !Contains(s, Fence)
    ensures !Contains(s, JsonFence)
  {
    forall i: nat | OccursAt(s, i, JsonFence) ensures OccursAt(s, i, Fence) {
      assert s[i..i + 3] == s[i..i + 7][..3];
    }
  }

  /** A reply containing no triple backtick is only trimmed before parsing. */
  lemma CleanWithoutFence(reply: string)
    requires !Contains(reply, Fence)
    ensures Clean(reply) == Trim(reply)
  {
    JsonFenceIsFence(reply);
    StripAllWithoutOccurrence(reply, JsonFence);
    StripAllWithoutOccurrence(reply, Fence);
  }

  /** Text with no backtick in front of the rest is kept as it is by either pass. */
  lemma {:induction false} StripAllKeepsPlainPrefix(a: string, b: string, pat: string)
    requires |pat| > 0 && pat[0] == '`'
    requires forall k :: 0 <= k < |a| ==> a[k] != '`'
    ensures StripAll(a + b, pat) == a + StripAll(b, pat)
    decreases |a|
  {
    if a != [] {
      assert (a + b)[0] == a[0];
      assert !OccursAt(a + b, 0, pat);
      assert (a + b)[1..] == a[1..] + b;
      assert StripAll(a + b, pat) == [a[0]] + StripAll(a[1..] + b, pat);
      StripAllKeepsPlainPrefix(a[1..], b, pat);
      assert a == [a[0]] + a[1..];
    } else {
      assert a + b == b;
    }
  }

  /**
   * The usual shape of the model's reply, a body without backticks wrapped in
   * a "```json" fence, is unwrapped to the body.
   */
  lemma CleanUnwrapsFencedReply(body: string)
    requires forall k :: 0 <= k < |body| ==> body[k] != '`'
    ensures Clean(JsonFence + "\n" + body + "\n" + Fence) == Trim(body + "\n")
  {
    var reply := JsonFence + "\n" + body + "\n" + Fence;
    var inner := body + "\n";
    assert forall k :: 0 <= k < |inner| ==> inner[k] != '`';
    assert OccursAt(reply, 0, JsonFence);
    assert reply[|JsonFence|..] == "\n" + inner + Fence;
    assert ("\n" + inner + Fence)[1..] == inner + Fence;
    StripAllKeepsPlainPrefix(inner, Fence, JsonFence);
    assert StripAll(Fence, JsonFence) == Fence;
    assert StripAll(reply, JsonFence) == inner + Fence;
    StripAllKeepsPlainPrefix(inner, Fence, Fence);
    assert StripAll(Fence, Fence) == [];
    assert inner + [] == inner;
  }

  // ---------------------------------------------------------------------------
  // Parsing
  // ---------------------------------------------------------------------------

  /**
   * The entries the function goes on to filter: the parsed array when the
   * reply is a string whose cleaned text parses to an array, and the empty
   * list otherwise (a non-string reply makes `replace` throw, which is caught
   * like a parse error; a non-array is replaced by `[]`).
   */
  function ParsedEntries(content: Option<Value>, parse: string -> Option<Value>): seq<Value> {
    if content.Some? && content.value.Str? then
      var parsed := parse(Clean(content.value.s));
      if parsed.Some? && parsed.value.Array? then parsed.value.elems else []
    else []
  }

  /** The reply yields entries only when its cleaned text parses to an array. */
  predicate ParsesToArray(content: Option<Value>, parse: string -> Option<Value>) {
    && content.Some? && content.value.Str?
    && var parsed := parse(Clean(content.value.s));
    parsed.Some? && parsed.value.Array?
  }

  // ---------------------------------------------------------------------------
  // Filtering and normalising the entries
  // ---------------------------------------------------------------------------

  /** An output item: the id is whatever truthy `id` the model gave, or a generated string. */
  datatype ProcessedItem = ProcessedItem(id: Value, name: string, price: real, assignedTo: seq<string>)

  /**
   * The filter of lines 99-104: a truthy entry with a string `name`, a number
   * `price`, and a name that is not blank.
   */
  predicate IsWellFormed(item: Value) {
    && Truthy(Some(item))
    && HasString(item, "name")
    && HasNumber(item, "price")
    && Trim(Get(item, "name").value.s) != ""
  }

  function RawName(item: Value): string
    requires HasString(item, "name")
  {
    Get(item, "name").value.s
  }

  function RawPrice(item: Value): real
    requires HasNumber(item, "price")
  {
    Get(item, "price").value.n
  }

  /** `Math.round(p * 100) / 100`; `Math.round(x)` is the floor of `x + 1/2`. */
  function RoundCents(p: real): real {
    (p * 100.0 + 0.5).Floor as real / 100.0
  }

  /** A whole number of cents. */
  predicate IsWholeCents(x: real) {
    (x * 100.0).Floor as real == x * 100.0
  }

  /**
   * Rounding to the cent gives a whole number of cents within half a cent of
   * the input (a half cent goes up), and is idempotent.
   */
  lemma RoundCentsProperties(p: real)
    ensures IsWholeCents(RoundCents(p))
    ensures -0.005 < RoundCents(p) - p <= 0.005
    ensures RoundCents(RoundCents(p)) == RoundCents(p)
  {
    var f := (p * 100.0 + 0.5).Floor;
    assert RoundCents(p) * 100.0 == f as real;
    WholeCentsAreFixed(RoundCents(p));
  }

  /** A price that is already a whole number of cents is left as it is. */
  lemma WholeCentsAreFixed(x: real)
    requires IsWholeCents(x)
    ensures RoundCents(x) == x
  {
    var n := (x * 100.0).Floor;
    assert (x * 100.0 + 0.5).Floor == n;
  }

  /** Exactly half a cent above a whole number of cents rounds up, also below zero. */
  lemma HalfCentRoundsUp(n: int)
    ensures RoundCents(n as real / 100.0 + 0.005) == (n + 1) as real / 100.0
  {
    assert (n as real / 100.0 + 0.005) * 100.0 + 0.5 == (n + 1) as real;
  }

  const GeneratedIdPrefix: string := "item_"

  /**
   * The map of lines 104-109 applied to the entry at position `k` of the
   * filtered list; `suffix(k)` is the random text drawn for it.
   */
  function Normalize(item: Value, k: nat, suffix: nat -> string): (r: ProcessedItem)
    requires IsWellFormed(item)
    ensures r.name == Trim(RawName(item)) && r.name != "" && IsTrimmed(r.name) && r.assignedTo == []
    ensures IsWholeCents(r.price) && -0.005 < r.price - RawPrice(item) <= 0.005
    ensures Truthy(Get(item, "id")) ==> r.id == Get(item, "id").value
    ensures !Truthy(Get(item, "id")) ==> r.id == Str(GeneratedIdPrefix + suffix(k))
  {
    RoundCentsProperties(RawPrice(item));
    var id := if Truthy(Get(item, "id")) then Get(item, "id").value
              else Str(GeneratedIdPrefix + suffix(k));
    ProcessedItem(id, Trim(RawName(item)), RoundCents(RawPrice(item)), [])
  }

  /** `.map(...)` over the filtered entries, the k-th drawing `suffix(k)`. */
  function NormalizeAll(xs: seq<Value>, suffix: nat -> string): (r: seq<ProcessedItem>)
    requires forall v | v in xs :: IsWellFormed(v)
  {
    seq(|xs|, i requires 0 <= i < |xs| => Normalize(xs[i], i, suffix))
  }

  /** Lines 99-109: the filtered and normalised items. */
  function Sanitize(entries: seq<Value>, suffix: nat -> string): (r: seq<ProcessedItem>)
    ensures |r| == |Filter(entries, IsWellFormed)| <= |entries|
    ensures forall i :: 0 <= i < |r| ==> r[i] == Normalize(Filter(entries, IsWellFormed)[i], i, suffix)
    ensures forall it | it in r ::
              it.name != "" && IsTrimmed(it.name) && it.assignedTo == [] && IsWholeCents(it.price)
  {
    var kept := Filter(entries, IsWellFormed);
    NormalizeAll(kept, suffix)
  }

  /** An unparseable reply, or one that parses to something other than an array, gives no items. */
  lemma UnparseableReplyGivesNoItems(content: Option<Value>, parse: string -> Option<Value>, suffix: nat -> string)
    requires !ParsesToArray(content, parse)
    ensures Sanitize(ParsedEntries(content, parse), suffix) == []
  {
  }

  // ---------------------------------------------------------------------------
  // The request handler
  // ---------------------------------------------------------------------------

  /** What `req.json()` gave: `Unreadable` where it throws. */
  datatype RequestBody = Unreadable | Parsed(json: Value)

  datatype Request = Preflight | Post(body: RequestBody)

  /** `data.choices[0].message.content`, or `Malformed` where reading it throws. */
  datatype Reply = Malformed | Content(content: Option<Value>)

  /** The outcome of the chat-completion call. */
  datatype Completion = FetchFailed | Completion(ok: bool, status: nat, reply: Reply)

  /** Exceptions raised by the runtime rather than by the function itself. */
  datatype RuntimeCause = BadRequestBody | NullRequestBody | FetchThrew | MalformedCompletion

  datatype Failure = NoImageData | ApiError(status: nat) | Runtime(cause: RuntimeCause)

  /** The text of `error.message` for the errors the function throws itself. */
  function ErrorMessage(f: Failure): Option<string> {
    match f
    case NoImageData => Some("No image data provided")
    case ApiError(status) => Some("OpenAI API error: " + NatToString(status))
    case Runtime(_) => None
  }

  /**
   * Only the errors the function throws itself carry a message of its own, and
   * the upstream status can be read back from the API error's message.
   */
  lemma ErrorMessageCarriesStatus(f: Failure)
    ensures ErrorMessage(f).Some? <==> !f.Runtime?
    ensures f.ApiError? ==>
              var m := ErrorMessage(f).value;
              var prefix := "OpenAI API error: ";
              && prefix <= m
              && (forall k :: |prefix| <= k < |m| ==> IsDigit(m[k]))
              && DecimalValue(m[|prefix|..]) == f.status
  {
    if f.ApiError? {
      var prefix := "OpenAI API error: ";
      var m := ErrorMessage(f).value;
      assert m[|prefix|..] == NatToString(f.status);
      DecimalRoundTrip(f.status);
    }
  }

  datatype Body = NullBody | ItemsBody(items: seq<ProcessedItem>) | ErrorBody(error: Failure, items: seq<ProcessedItem>)

  datatype Response = Response(status: nat, headers: map<string, string>, body: Body)

  const CorsHeaders: map<string, string> := map[
    "Access-Control-Allow-Origin" := "*",
    "Access-Control-Allow-Headers" := "authorization, x-client-info, apikey, content-type"]

  const JsonHeaders: map<string, string> := CorsHeaders["Content-Type" := "application/json"]

  /** The request carries a truthy `imageData`, so the model is called. */
  predicate ProvidesImage(req: Request) {
    req.Post? && req.body.Parsed? && req.body.json != Null && Truthy(Get(req.body.json, "imageData"))
  }

  /** The model answered with status OK and a readable message. */
  predicate Answered(c: Completion) {
    c.Completion? && c.ok && c.reply.Content?
  }

  /**
   * The whole handler: a preflight gets an empty body with the CORS headers;
   * every other request gets a JSON body, either the sanitised items (200) or
   * an error with an empty item list (500).
   */
  method HandleRequest(req: Request, completion: Completion, parse: string -> Option<Value>, suffix: nat -> string)
    returns (resp: Response)
    ensures req.Preflight? ==> resp == Response(200, CorsHeaders, NullBody)
    ensures req.Post? ==> resp.headers == JsonHeaders
    ensures resp.status == 200 <==> req.Preflight? || (ProvidesImage(req) && Answered(completion))
    ensures resp.status != 200 ==> resp.status == 500 && resp.body.ErrorBody? && resp.body.items == []
    ensures req.Post? && req.body.Parsed? && req.body.json != Null && !ProvidesImage(req) ==>
              resp.body == ErrorBody(NoImageData, [])
    ensures ProvidesImage(req) && completion.Completion? && !completion.ok ==>
              resp.body == ErrorBody(ApiError(completion.status), [])
    ensures ProvidesImage(req) && Answered(completion) ==>
              resp.body == ItemsBody(Sanitize(ParsedEntries(completion.reply.content, parse), suffix))
  {
    if req.Preflight? {
      return Response(200, CorsHeaders, NullBody);
    }
    // const { imageData } = await req.json();
    if req.body.Unreadable? {
      return Response(500, JsonHeaders, ErrorBody(Runtime(BadRequestBody), []));
    }
    var json := req.body.json;
    if json == Null {
      return Response(500, JsonHeaders, ErrorBody(Runtime(NullRequestBody), []));
    }
    if !Truthy(Get(json, "imageData")) {
      return Response(500, JsonHeaders, ErrorBody(NoImageData, []));
    }
    if completion.FetchFailed? {
      return Response(500, JsonHeaders, ErrorBody(Runtime(FetchThrew), []));
    }
    if !completion.ok {
      return Response(500, JsonHeaders, ErrorBody(ApiError(completion.status), []));
    }
    if completion.reply.Malformed? {
      return Response(500, JsonHeaders, ErrorBody(Runtime(MalformedCompletion), []));
    }
    var content := completion.reply.content;

    var items: seq<Value>;
    if content.Some? && content.value.Str? {
      var parsed := parse(Clean(content.value.s));
      if parsed.Some? {
        if parsed.value.Array? {
          items := parsed.value.elems;
        } else {
          items := [];
        }
      } else {
        items := [];
      }
    } else {
      // `content.replace` throws inside the inner try: the reply is treated as unparseable
      items := [];
    }
    var processed := Sanitize(items, suffix);
    resp := Response(200, JsonHeaders, ItemsBody(processed));
  }
}
