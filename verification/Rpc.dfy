/** Decoded JSON-RPC messages (internal/proxy/rpc.go) and the trace filter. JSON decoding itself is a parameter. */
module Rpc {
  import opened Text

  /** A JSON-RPC id that is present: a string, or the JSON text of any other value. */
  datatype Id = Quoted(content: string) | Bare(json: string)

  /** The correlation form of an id; an absent id gives "". */
  function IDString(id: Option<Id>): string {
    match id
    case None => ""
    case Some(Quoted(content)) => content
    case Some(Bare(json)) => json
  }

  datatype RpcError = RpcError(code: int, message: string)

  /** `tool` is the list of content texts when the result is a tool-level error. */
  datatype Response = Response(id: Option<Id>, error: Option<RpcError>, tool: Option<seq<string>>)

  type Decoder = string -> Option<Response>

  datatype ErrorInfo = ErrorInfo(isErr: bool, msg: string, code: int)

  function IsError(resp: Response): ErrorInfo {
    match resp.error
    case Some(e) => ErrorInfo(true, e.message, e.code)
    case None =>
      match resp.tool
      case Some(texts) => ErrorInfo(true, if texts == [] then "tool error" else texts[0], 0)
      case None => ErrorInfo(false, "", 0)
  }

  datatype Request =
    Request(rpcMethod: string, id: Option<Id>, toolName: string, clientName: string, clientVer: string)

  datatype Filter = Filter(traceAll: bool, includeLifecycle: bool)

  predicate IsLifecycle(rpcMethod: string) {
    || rpcMethod == "initialize"
    || rpcMethod == "initialized"
    || rpcMethod == "ping"
    || HasPrefix(rpcMethod, "notifications/")
  }

  predicate ShouldTrace(f: Filter, rpcMethod: string) {
    if IsLifecycle(rpcMethod) then f.includeLifecycle else f.traceAll || rpcMethod == "tools/call"
  }

  /** How a span was ended: `mcp.status` together with the reason or the size of the answer. */
  datatype Verdict =
    | Answered(info: ErrorInfo, size: nat)
    | Failed(msg: string)
    | TimedOut
    | Abandoned(clientGone: bool)

  /** The verdict of the message `data`, and the id it answers, when it carries a usable id. */
  function AnswerIn(decode: Decoder, data: string): Option<(string, Verdict)> {
    match decode(data)
    case None => None
    case Some(resp) =>
      var id := IDString(resp.id);
      if id == "" then None else Some((id, Answered(IsError(resp), |data|)))
  }

  function ToolNameOf(r: Request): string {
    if r.rpcMethod == "tools/call" then r.toolName else ""
  }

  function Decimal(n: nat): string {
    if n < 10 then ["0123456789"[n]] else Decimal(n / 10) + ["0123456789"[n % 10]]
  }

  function RejectedMsg(status: nat): string {
    "upstream rejected the request with HTTP " + Decimal(status)
  }

  // ---------- What the helpers mean ----------

  /** The id is present and correlates as `text`: a string by its content, anything else by its JSON text. */
  predicate IsId(id: Option<Id>, text: string) {
    id == Some(Quoted(text)) || id == Some(Bare(text))
  }

  lemma IdKept(id: Option<Id>, text: string)
    ensures IDString(id) == text <==> IsId(id, text) || (id.None? && text == "")
  {
  }

  /** A JSON-RPC error counts first, with its message and code; then a tool-level error, with its first text. */
  predicate Reports(info: ErrorInfo, resp: Response) {
    && (info.isErr <==> resp.error.Some? || resp.tool.Some?)
    && (resp.error.Some? ==> info.code == resp.error.value.code && info.msg == resp.error.value.message)
    && (resp.error.None? ==> info.code == 0)
    && (resp.error.None? && resp.tool.None? ==> info.msg == "")
    && (resp.error.None? && resp.tool == Some([]) ==> info.msg == "tool error")
    && (resp.error.None? && resp.tool.Some? && resp.tool.value != [] ==> info.msg == resp.tool.value[0])
  }

  lemma IsErrorReports(resp: Response, info: ErrorInfo)
    ensures IsError(resp) == info <==> Reports(info, resp)
  {
  }

  /** The message carries a usable id and this is the verdict it gives the call. */
  predicate Says(decode: Decoder, data: string, id: string, v: Verdict) {
    && decode(data).Some? && IsId(decode(data).value.id, id) && id != ""
    && v.Answered? && v.size == |data| && Reports(v.info, decode(data).value)
  }

  lemma AnswerMeans(decode: Decoder, data: string, id: string, v: Verdict)
    ensures AnswerIn(decode, data) == Some((id, v)) <==> Says(decode, data, id, v)
  {
    if decode(data).Some? {
      IdKept(decode(data).value.id, id);
      if v.Answered? {
        IsErrorReports(decode(data).value, v.info);
      }
    }
  }

  lemma AnswerSays(decode: Decoder, data: string)
    ensures forall id, v :: Says(decode, data, id, v) <==> AnswerIn(decode, data) == Some((id, v))
  {
    forall id, v ensures Says(decode, data, id, v) <==> AnswerIn(decode, data) == Some((id, v)) {
      AnswerMeans(decode, data, id, v);
    }
  }

  /** Lifecycle methods are traced when asked for, tool calls always, and the rest when everything is. */
  lemma TracedMethods(f: Filter, rpcMethod: string)
    ensures rpcMethod in ["initialize", "initialized", "ping"] || HasPrefix(rpcMethod, "notifications/")
            ==> (ShouldTrace(f, rpcMethod) <==> f.includeLifecycle)
    ensures rpcMethod == "tools/call" ==> ShouldTrace(f, rpcMethod)
    ensures rpcMethod !in ["initialize", "initialized", "ping", "tools/call"] && !HasPrefix(rpcMethod, "notifications/")
            ==> (ShouldTrace(f, rpcMethod) <==> f.traceAll)
  {
  }

  predicate IsDigit(c: char) { '0' <= c <= '9' }

  function DigitOf(c: char): nat
    requires IsDigit(c)
  {
    c as int - '0' as int
  }

  /** The number a string of digits stands for. */
  function Numeral(s: string): nat
    requires forall i :: 0 <= i < |s| ==> IsDigit(s[i])
  {
    if s == "" then 0 else 10 * Numeral(s[..|s| - 1]) + DigitOf(s[|s| - 1])
  }

  lemma {:induction false} DecimalIsNumeral(n: nat)
    ensures Decimal(n) != "" && (n > 0 ==> Decimal(n)[0] != '0')
    ensures forall i :: 0 <= i < |Decimal(n)| ==> IsDigit(Decimal(n)[i])
    ensures Numeral(Decimal(n)) == n
    decreases n
  {
    if n >= 10 {
      DecimalIsNumeral(n / 10);
      var d := Decimal(n);
      assert d[..|d| - 1] == Decimal(n / 10);
    } else {
      assert Decimal(n)[..0] == "";
    }
  }
}
