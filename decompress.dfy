/**
 * The `/decompress` handler of server.js, as a function from the parsed JSON
 * request body to the kind of response sent.
 *
 * The handler first picks where the payload is, in a fixed precedence: a
 * truthy `base64` field, then `data._handle` (an n8n buffer object), then
 * `_handle.buffer`. It then looks at the first two bytes for the gzip magic
 * number ID1 = 0x1F, ID2 = 0x8B (section 2.3.1 of RFC 1952): gzip data is
 * decompressed, anything else is passed through if its text looks like XML
 * and refused otherwise. Anything thrown on the way is a 500.
 *
 * The library calls (Buffer.from with and without 'base64', UTF-8 decoding,
 * zlib.gunzipSync) are opaque functions in an `Env`; logging is left out.
 */
module Decompress {
  import opened Wrappers

  newtype byte = x: int | 0 <= x < 256

  /** A JavaScript value in the parsed body; `Undefined` is what reading an absent property gives. */
  datatype Value =
    | Undefined
    | Null
    | Bool(b: bool)
    | Num(n: real)
    | Str(s: string)
    | Arr(items: seq<Value>)
    | Obj(props: map<string, Value>)

  /** JavaScript truthiness; JSON numbers are never NaN. */
  predicate Truthy(v: Value) {
    match v
    case Undefined => false
    case Null => false
    case Bool(b) => b
    case Num(n) => n != 0.0
    case Str(s) => s != ""
    case Arr(_) => true
    case Obj(_) => true
  }

  /** A value whose properties can be read without a TypeError. */
  predicate Defined(v: Value) {
    !v.Undefined? && !v.Null?
  }

  /** Reading property `k` of a defined value; only objects have the properties the handler reads. */
  function Field(v: Value, k: string): Value
    requires Defined(v)
  {
    if v.Obj? && k in v.props then v.props[k] else Undefined
  }

  /** The library calls of the handler; `None` stands for an exception thrown. */
  datatype Env = Env(
    fromBase64: Value -> Option<seq<byte>>,
    fromData: Value -> Option<seq<byte>>,
    utf8: seq<byte> -> string,
    gunzip: seq<byte> -> Option<seq<byte>>)

  /** `Buffer.from(v)`: throws for undefined or null, otherwise whatever the library does. */
  function BufferFrom(env: Env, v: Value): Option<seq<byte>> {
    if Defined(v) then env.fromData(v) else None
  }

  /** Where the payload was found: the `base64` field, the n8n `data._handle`, the direct `_handle.buffer`, or nowhere. */
  datatype Format = Base64Field(source: Value) | N8nHandle(source: Value) | DirectBuffer(source: Value) | NoFormat

  /** The if/else-if chain that picks the input shape; a branch is taken only on a truthy value. */
  function SelectFormat(body: Value): (f: Format)
    requires Defined(body)
    ensures f.NoFormat? || Truthy(f.source)
    ensures f.Base64Field? <==> Truthy(Field(body, "base64"))
    ensures f.Base64Field? ==> f.source == Field(body, "base64")
    ensures f.N8nHandle? ==> Defined(Field(body, "data")) && f.source == Field(Field(body, "data"), "_handle")
    ensures f.DirectBuffer? ==> Defined(Field(body, "_handle")) && f.source == Field(Field(body, "_handle"), "buffer")
  {
    var b64 := Field(body, "base64");
    var data := Field(body, "data");
    var handle := Field(body, "_handle");
    if Truthy(b64) then Base64Field(b64)
    else if Truthy(data) && Truthy(Field(data, "_handle")) then N8nHandle(Field(data, "_handle"))
    else if Truthy(handle) && Truthy(Field(handle, "buffer")) then DirectBuffer(Field(handle, "buffer"))
    else NoFormat
  }

  /**
   * The bytes `buffer` is assigned in the chosen branch, or `None` when that
   * branch throws: the base64 branch decodes its field and nothing else, a
   * buffer branch only ever yields what `Buffer.from` gives for a defined value.
   */
  function ReadBytes(f: Format, env: Env): (r: Option<seq<byte>>)
    requires !f.NoFormat? && Truthy(f.source)
    ensures f.Base64Field? ==> r == env.fromBase64(f.source)
    ensures !f.Base64Field? && r.Some? ==> exists v :: Defined(v) && env.fromData(v) == r
    ensures f.N8nHandle? && r.Some? ==>
      Defined(Field(f.source, "buffer")) && r == env.fromData(Field(Field(f.source, "buffer"), "data"))
    ensures f.DirectBuffer? && r.Some? ==> r == env.fromData(Field(f.source, "data"))
  {
    match f
    case Base64Field(text) => env.fromBase64(text)
    case N8nHandle(handle) =>
      // req.body.data._handle.buffer.data: reading `.data` of a missing buffer throws
      var buffer := Field(handle, "buffer");
      if Defined(buffer) then BufferFrom(env, Field(buffer, "data")) else None
    case DirectBuffer(buffer) => BufferFrom(env, Field(buffer, "data"))
  }

  /** What the handler sends. */
  datatype Response =
    | Decompressed(xml: string)               // 200 text/xml: the gunzipped bytes as UTF-8
    | PassThrough(xml: string)                // 200 text/xml: the payload was XML already
    | NoValidFormat                           // 400: no payload field found
    | NotGzip(firstBytes: seq<Option<byte>>)  // 400: neither gzip nor XML, with the first three bytes
    | DecompressionFailed                     // 500: something threw

  /** `buffer[i]`, undefined past the end. */
  function ByteAt(b: seq<byte>, i: nat): Option<byte> {
    if i < |b| then Some(b[i]) else None
  }

  /** The negation of the guard `buffer[0] !== 0x1F || buffer[1] !== 0x8B`. */
  predicate HasGzipMagic(b: seq<byte>) {
    ByteAt(b, 0) == Some(0x1F) && ByteAt(b, 1) == Some(0x8B)
  }

  /** `pat` appears in `text` starting at index `i`. */
  predicate OccursAt(text: string, pat: string, i: nat) {
    i + |pat| <= |text| && text[i..i + |pat|] == pat
  }

  /** `text.includes(pat)`: substring search, true exactly when some window of the text equals the pattern. */
  function Includes(text: string, pat: string): (r: bool)
    ensures r <==> exists i: nat :: OccursAt(text, pat, i)
    decreases |text|
  {
    if |text| < |pat| then false
    else if text[..|pat|] == pat then
      assert OccursAt(text, pat, 0);
      true
    else
      OccursInTail(text, pat);
      Includes(text[1..], pat)
  }

  /** When the pattern does not start the text, it occurs in the text exactly when it occurs in the text's tail. */
  lemma OccursInTail(text: string, pat: string)
    requires |pat| <= |text| && text[..|pat|] != pat
    ensures |text| > 0
    ensures (exists i: nat :: OccursAt(text, pat, i)) <==> exists j: nat :: OccursAt(text[1..], pat, j)
  {
    if exists j: nat :: OccursAt(text[1..], pat, j) {
      var j: nat :| OccursAt(text[1..], pat, j);
      assert text[j + 1..j + 1 + |pat|] == text[1..][j..j + |pat|];
      assert OccursAt(text, pat, j + 1);
    }
    if exists i: nat :: OccursAt(text, pat, i) {
      var i: nat :| OccursAt(text, pat, i);
      assert i != 0;
      assert text[1..][i - 1..i - 1 + |pat|] == text[i..i + |pat|];
      assert OccursAt(text[1..], pat, i - 1);
    }
  }

  /** The XML test applied to a payload that is not gzip. */
  predicate LooksLikeXml(text: string) {
    Includes(text, "<?xml") || Includes(text, "<s:Envelope")
  }

  /**
   * Everything after `buffer` is assigned: gzip data gives the decompressed
   * text or the 500, anything else is passed through as XML or refused with
   * its first three bytes; a missing payload is never the verdict here.
   */
  function Classify(b: seq<byte>, env: Env): (r: Response)
    ensures r.Decompressed? || r.DecompressionFailed? <==> HasGzipMagic(b)
    ensures r.PassThrough? ==> r.xml == env.utf8(b) && LooksLikeXml(r.xml)
    ensures r.NotGzip? ==> r.firstBytes == [ByteAt(b, 0), ByteAt(b, 1), ByteAt(b, 2)] && !LooksLikeXml(env.utf8(b))
    ensures !r.NoValidFormat?
  {
    if !HasGzipMagic(b) then
      var text := env.utf8(b);
      if LooksLikeXml(text) then PassThrough(text)
      else NotGzip([ByteAt(b, 0), ByteAt(b, 1), ByteAt(b, 2)])
    else
      match env.gunzip(b)
      case None => DecompressionFailed
      case Some(out) => Decompressed(env.utf8(out))
  }

  /**
   * The whole handler. `Object.keys(req.body)` in the first log line throws
   * for an undefined or null body. The 400 for a missing format is sent
   * exactly when no payload shape is found; text is passed through only when
   * it looks like XML; a refusal always reports three byte positions.
   */
  function HandleDecompress(body: Value, env: Env): (r: Response)
    ensures r == NoValidFormat <==> Defined(body) && SelectFormat(body).NoFormat?
    ensures r.PassThrough? ==> LooksLikeXml(r.xml)
    ensures r.NotGzip? ==> |r.firstBytes| == 3
    ensures !Defined(body) ==> r == DecompressionFailed
  {
    if !Defined(body) then DecompressionFailed
    else
      var f := SelectFormat(body);
      if f.NoFormat? then NoValidFormat
      else
        match ReadBytes(f, env)
        case None => DecompressionFailed
        case Some(b) => Classify(b, env)
  }

  // Properties

  /** The gzip test is the RFC 1952 magic number in the first two bytes; the third byte (CM) is not looked at. */
  lemma GzipMagicOnly(b: seq<byte>, x: byte)
    ensures HasGzipMagic(b) <==> |b| >= 2 && b[0] == 0x1F && b[1] == 0x8B
    ensures |b| >= 3 ==> (HasGzipMagic(b[2 := x]) <==> HasGzipMagic(b))
  {
  }

  /** Gzip data is always decompressed, never passed through, even when its bytes would also pass the XML test. */
  lemma GzipAlwaysDecompressed(b: seq<byte>, env: Env)
    requires |b| >= 2 && b[0] == 0x1F && b[1] == 0x8B
    ensures Classify(b, env) == if env.gunzip(b).Some? then Decompressed(env.utf8(env.gunzip(b).value)) else DecompressionFailed
    ensures !Classify(b, env).PassThrough? && !Classify(b, env).NotGzip?
  {
    GzipMagicOnly(b, 0);
  }

  /** A payload without the magic number whose text contains an XML marker is sent back unchanged. */
  lemma XmlPassedThrough(b: seq<byte>, env: Env, i: nat)
    requires !(|b| >= 2 && b[0] == 0x1F && b[1] == 0x8B)
    requires OccursAt(env.utf8(b), "<?xml", i)
    ensures Classify(b, env) == PassThrough(env.utf8(b))
  {
    GzipMagicOnly(b, 0);
  }

  /** A payload without the magic number whose text contains a SOAP envelope is sent back unchanged too. */
  lemma EnvelopePassedThrough(b: seq<byte>, env: Env, i: nat)
    requires !(|b| >= 2 && b[0] == 0x1F && b[1] == 0x8B)
    requires OccursAt(env.utf8(b), "<s:Envelope", i)
    ensures Classify(b, env) == PassThrough(env.utf8(b))
  {
    GzipMagicOnly(b, 0);
  }

  /** A payload with neither the magic number nor an XML marker is a 400 that reports its first three bytes; so is every payload under two bytes. */
  lemma OtherPayloadsRefused(b: seq<byte>, env: Env)
    requires !(|b| >= 2 && b[0] == 0x1F && b[1] == 0x8B)
    requires forall i: nat :: !OccursAt(env.utf8(b), "<?xml", i)
    requires forall i: nat :: !OccursAt(env.utf8(b), "<s:Envelope", i)
    ensures Classify(b, env) == NotGzip([ByteAt(b, 0), ByteAt(b, 1), ByteAt(b, 2)])
    ensures |b| < 2 ==> !HasGzipMagic(b)
  {
    GzipMagicOnly(b, 0);
  }

  /** A truthy `base64` field decides the response alone: the other fields are never read. */
  lemma Base64FieldWins(props: map<string, Value>, env: Env)
    requires "base64" in props && Truthy(props["base64"])
    ensures HandleDecompress(Obj(props), env) == HandleDecompress(Obj(map["base64" := props["base64"]]), env)
    ensures HandleDecompress(Obj(props), env)
         == if env.fromBase64(props["base64"]).Some? then Classify(env.fromBase64(props["base64"]).value, env)
            else DecompressionFailed
  {
  }

  /** Without a truthy `base64`, a truthy `data._handle` decides the response: `_handle` at the top is never read. */
  lemma N8nHandleBeforeDirectBuffer(props: map<string, Value>, env: Env)
    requires !("base64" in props && Truthy(props["base64"]))
    requires "data" in props && Truthy(props["data"]) && Truthy(Field(props["data"], "_handle"))
    ensures HandleDecompress(Obj(props), env) == HandleDecompress(Obj(map["data" := props["data"]]), env)
  {
  }

  /**
   * Format 2: the bytes classified are `Buffer.from(data._handle.buffer.data)`;
   * an undefined payload or a throw from `Buffer.from` is the 500.
   */
  lemma N8nHandleBytes(body: Value, env: Env)
    requires Defined(body) && !Truthy(Field(body, "base64"))
    requires Truthy(Field(body, "data")) && Truthy(Field(Field(body, "data"), "_handle"))
    requires Defined(Field(Field(Field(body, "data"), "_handle"), "buffer"))
    ensures var payload := Field(Field(Field(Field(body, "data"), "_handle"), "buffer"), "data");
      HandleDecompress(body, env)
      == if Defined(payload) && env.fromData(payload).Some? then Classify(env.fromData(payload).value, env)
         else DecompressionFailed
  {
  }

  /**
   * Format 3: the bytes classified are `Buffer.from(_handle.buffer.data)`;
   * an undefined payload or a throw from `Buffer.from` is the 500.
   */
  lemma DirectBufferBytes(body: Value, env: Env)
    requires Defined(body) && !Truthy(Field(body, "base64"))
    requires var data := Field(body, "data"); !(Truthy(data) && Truthy(Field(data, "_handle")))
    requires Truthy(Field(body, "_handle")) && Truthy(Field(Field(body, "_handle"), "buffer"))
    ensures var payload := Field(Field(Field(body, "_handle"), "buffer"), "data");
      HandleDecompress(body, env)
      == if Defined(payload) && env.fromData(payload).Some? then Classify(env.fromData(payload).value, env)
         else DecompressionFailed
  {
  }

  /** With none of the three shapes present the answer is the 400 for a missing format, whatever the libraries would do. */
  lemma NoFormatNoDecoding(body: Value, env1: Env, env2: Env)
    requires Defined(body)
    requires !Truthy(Field(body, "base64"))
    requires var data := Field(body, "data"); !(Truthy(data) && Truthy(Field(data, "_handle")))
    requires var handle := Field(body, "_handle"); !(Truthy(handle) && Truthy(Field(handle, "buffer")))
    ensures HandleDecompress(body, env1) == HandleDecompress(body, env2) == NoValidFormat
  {
  }

  /** An n8n handle without a buffer throws on `.buffer.data`: a 500, whatever the libraries would do. */
  lemma N8nHandleWithoutBufferFails(props: map<string, Value>, handle: map<string, Value>, env: Env)
    requires !("base64" in props && Truthy(props["base64"]))
    requires "data" in props && props["data"].Obj? && "_handle" in props["data"].props
    requires props["data"].props["_handle"] == Obj(handle) && "buffer" !in handle
    ensures HandleDecompress(Obj(props), env) == DecompressionFailed
  {
  }

  /** A buffer object without `data` makes `Buffer.from(undefined)` throw: a 500 in both buffer formats. */
  lemma BufferWithoutDataFails(body: Value, env: Env)
    requires Defined(body)
    requires var f := SelectFormat(body);
      (f.N8nHandle? && Field(f.source, "buffer").Obj? && "data" !in Field(f.source, "buffer").props)
      || (f.DirectBuffer? && f.source.Obj? && "data" !in f.source.props)
    ensures HandleDecompress(body, env) == DecompressionFailed
  {
  }

  /** Whatever throws while the payload is read, in any of the three formats, the answer is the 500. */
  lemma PayloadReadFailureFails(body: Value, env: Env)
    requires Defined(body) && !SelectFormat(body).NoFormat?
    requires ReadBytes(SelectFormat(body), env).None?
    ensures HandleDecompress(body, env) == DecompressionFailed
  {
  }
}
