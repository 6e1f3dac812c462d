/** The JSON-RPC server codec of the terminal API (api/jsonrpc/jsonrpc.go):
    dotted method names are rewritten to service methods, each request gets
    an internal sequence number while the client's id waits in a pending
    table, and each response echoes that id back exactly once. JSON values
    are kept as their raw text. */
module JsonRpc {
  import opened Common

  // ---- method-name rewriting ----

  /** `strings.Split(s, ".")`: the pieces between dots, at least one. */
  function Split(s: string): (pieces: seq<string>)
    ensures |pieces| >= 1
    ensures forall k :: 0 <= k < |pieces| ==> '.' !in pieces[k]
  {
    if |s| == 0 then [""]
    else
      var rest := Split(s[1..]);
      if s[0] == '.' then [""] + rest
      else [[s[0]] + rest[0]] + rest[1..]
  }

  /** `strings.Join(pieces, ".")`. */
  function Join(pieces: seq<string>): string
    requires |pieces| >= 1
  {
    if |pieces| == 1 then pieces[0] else pieces[0] + "." + Join(pieces[1..])
  }

  /** The pieces joined with nothing between them. */
  function Concat(pieces: seq<string>): string
  {
    if |pieces| == 0 then "" else pieces[0] + Concat(pieces[1..])
  }

  /** `s` with every dot removed. */
  function WithoutDots(s: string): string
  {
    if |s| == 0 then "" else (if s[0] == '.' then "" else [s[0]]) + WithoutDots(s[1..])
  }

  function DotCount(s: string): nat
  {
    if |s| == 0 then 0 else (if s[0] == '.' then 1 else 0) + DotCount(s[1..])
  }

  /** Splitting loses nothing: joining the pieces back with dots gives the
      original text. */
  lemma {:induction false} JoinSplit(s: string)
    ensures Join(Split(s)) == s
    decreases |s|
  {
    if |s| > 0 {
      JoinSplit(s[1..]);
      var rest := Split(s[1..]);
      if s[0] != '.' {
        if |rest| > 1 {
          assert Split(s)[1..] == rest[1..];
        }
      }
    }
  }

  /** And conversely, dot-free pieces are recovered from their join. */
  lemma {:induction false} SplitJoin(pieces: seq<string>)
    requires |pieces| >= 1
    requires forall k :: 0 <= k < |pieces| ==> '.' !in pieces[k]
    ensures Split(Join(pieces)) == pieces
    decreases |pieces|, |pieces[0]|
  {
    var head := pieces[0];
    if |head| == 0 {
      if |pieces| > 1 {
        SplitJoin(pieces[1..]);
        assert Join(pieces) == "." + Join(pieces[1..]);
        assert Join(pieces)[1..] == Join(pieces[1..]);
      }
    } else {
      var shorter := [head[1..]] + pieces[1..];
      assert forall k :: 0 <= k < |shorter| ==> '.' !in shorter[k] by {
        forall k | 0 <= k < |shorter| ensures '.' !in shorter[k] {
          if k == 0 {
            assert forall c :: c in head[1..] ==> c in head;
          } else {
            assert shorter[k] == pieces[k];
          }
        }
      }
      SplitJoin(shorter);
      assert head[0] in head;
      if |pieces| == 1 {
        assert Join(pieces)[1..] == Join(shorter);
      } else {
        assert Join(pieces) == head + "." + Join(pieces[1..]);
        assert Join(shorter) == head[1..] + "." + Join(pieces[1..]);
        assert Join(pieces)[1..] == Join(shorter);
      }
      assert [head[0]] + head[1..] == head;
      assert shorter[1..] == pieces[1..];
    }
  }

  /** Concatenating the pieces is the text without its dots. */
  lemma {:induction false} ConcatSplit(s: string)
    ensures Concat(Split(s)) == WithoutDots(s)
    decreases |s|
  {
    if |s| > 0 {
      ConcatSplit(s[1..]);
      var rest := Split(s[1..]);
      if s[0] != '.' {
        assert Split(s)[1..] == rest[1..];
        assert Concat(Split(s)) == [s[0]] + rest[0] + Concat(rest[1..]);
        assert Concat(rest) == rest[0] + Concat(rest[1..]);
      }
    }
  }

  lemma {:induction false} WithoutDotsLength(s: string)
    ensures |WithoutDots(s)| + DotCount(s) == |s|
    decreases |s|
  {
    if |s| > 0 {
      WithoutDotsLength(s[1..]);
    }
  }

  /** `strings.Title`'s word boundaries for ASCII: anything but a letter, a
      digit or an underscore. */
  predicate IsSeparator(c: char)
  {
    if c <= '\U{7F}' then
      !(('0' <= c <= '9') || ('a' <= c <= 'z') || ('A' <= c <= 'Z') || c == '_')
    else false
  }

  function ToUpper(c: char): char
  {
    if 'a' <= c <= 'z' then c - 'a' + 'A' else c
  }

  function ToLower(c: char): char
  {
    if 'A' <= c <= 'Z' then c - 'A' + 'a' else c
  }

  function LowerAll(s: string): (t: string)
    ensures |t| == |s|
    ensures forall i :: 0 <= i < |s| ==> t[i] == ToLower(s[i])
  {
    if |s| == 0 then "" else [ToLower(s[0])] + LowerAll(s[1..])
  }

  function TitleFrom(s: string, afterSeparator: bool): (t: string)
    ensures |t| == |s|
  {
    if |s| == 0 then ""
    else [if afterSeparator then ToUpper(s[0]) else s[0]] + TitleFrom(s[1..], IsSeparator(s[0]))
  }

  /** `strings.Title`: every letter that begins a word is upper-cased; the
      start of the text begins a word. */
  function Title(s: string): (t: string)
    ensures |t| == |s|
    ensures |s| > 0 ==> t[0] == ToUpper(s[0])
  {
    TitleFrom(s, true)
  }

  lemma {:induction false} TitleFromAt(s: string, afterSeparator: bool, i: nat)
    requires i < |s|
    ensures |TitleFrom(s, afterSeparator)| == |s|
    ensures TitleFrom(s, afterSeparator)[i] ==
              if (if i == 0 then afterSeparator else IsSeparator(s[i - 1])) then ToUpper(s[i]) else s[i]
    decreases i
  {
    if i > 0 {
      TitleFromAt(s[1..], IsSeparator(s[0]), i - 1);
      assert s[1..][i - 1] == s[i];
      if i > 1 {
        assert s[1..][i - 2] == s[i - 1];
      }
    }
  }

  /** Title-casing keeps the length, upper-cases the first character and
      every character after a separator, and leaves the rest alone. */
  lemma TitleAt(s: string)
    ensures |Title(s)| == |s|
    ensures forall i :: 0 <= i < |s| ==>
              Title(s)[i] == if i == 0 || IsSeparator(s[i - 1]) then ToUpper(s[i]) else s[i]
  {
    forall i | 0 <= i < |s|
      ensures Title(s)[i] == if i == 0 || IsSeparator(s[i - 1]) then ToUpper(s[i]) else s[i]
    {
      TitleFromAt(s, true, i);
    }
  }

  lemma LowerOfUpper(c: char)
    ensures ToLower(ToUpper(c)) == ToLower(c)
  {
  }

  /** Title-casing only changes the case of letters. */
  lemma TitleIgnoringCase(s: string)
    ensures LowerAll(Title(s)) == LowerAll(s)
  {
    var t := Title(s);
    forall i | 0 <= i < |s|
      ensures LowerAll(t)[i] == LowerAll(s)[i]
    {
      TitleFromAt(s, true, i);
      LowerOfUpper(s[i]);
    }
  }

  /** A word of small letters is title-cased by capitalising its first. */
  lemma TitleOfWord(s: string)
    requires |s| > 0 && forall i :: 0 <= i < |s| ==> 'a' <= s[i] <= 'z'
    ensures Title(s) == [ToUpper(s[0])] + s[1..]
  {
    forall i | 0 <= i < |s|
      ensures Title(s)[i] == ([ToUpper(s[0])] + s[1..])[i]
    {
      TitleFromAt(s, true, i);
    }
  }

  /** Each piece title-cased, then all concatenated. */
  function ConcatTitled(pieces: seq<string>): string
  {
    if |pieces| == 0 then "" else Title(pieces[0]) + ConcatTitled(pieces[1..])
  }

  /** The service method a dotted JSON-RPC method name is dispatched to:
      `eval.new` under prefix `RPC` is `RPC.EvalNew`. */
  function ServiceMethodName(prefix: string, methodName: string): (name: string)
    ensures |name| > |prefix| && name[..|prefix| + 1] == prefix + "."
  {
    prefix + "." + ConcatTitled(Split(methodName))
  }

  lemma {:induction false} LowerAllAppend(a: string, b: string)
    ensures LowerAll(a + b) == LowerAll(a) + LowerAll(b)
  {
  }

  lemma {:induction false} ConcatTitledIgnoringCase(pieces: seq<string>)
    ensures LowerAll(ConcatTitled(pieces)) == LowerAll(Concat(pieces))
    decreases |pieces|
  {
    if |pieces| > 0 {
      ConcatTitledIgnoringCase(pieces[1..]);
      TitleIgnoringCase(pieces[0]);
      LowerAllAppend(Title(pieces[0]), ConcatTitled(pieces[1..]));
      LowerAllAppend(pieces[0], Concat(pieces[1..]));
    }
  }

  /** The service method is the prefix, a dot, and the requested name with
      its dots removed, equal to it but for letter case; so it is one
      character longer than prefix and name together, less the dots. */
  lemma ServiceMethodNameReadsBack(prefix: string, methodName: string)
    ensures var name := ServiceMethodName(prefix, methodName);
            && name[..|prefix| + 1] == prefix + "."
            && LowerAll(name[|prefix| + 1..]) == LowerAll(WithoutDots(methodName))
            && |name| == |prefix| + 1 + |methodName| - DotCount(methodName)
  {
    var name := ServiceMethodName(prefix, methodName);
    assert name[|prefix| + 1..] == ConcatTitled(Split(methodName));
    ConcatTitledIgnoringCase(Split(methodName));
    ConcatSplit(methodName);
    WithoutDotsLength(methodName);
  }

  lemma ServiceMethodNameOfTwoPieces(prefix: string, methodName: string, first: string, second: string)
    requires '.' !in first && '.' !in second && methodName == first + "." + second
    ensures ServiceMethodName(prefix, methodName) == prefix + "." + Title(first) + Title(second)
  {
    assert Join([first, second]) == first + "." + Join([second]);
    SplitJoin([first, second]);
    assert ConcatTitled([first, second]) == Title(first) + ConcatTitled([second]);
  }

  /** `inlet.open` is served by `RPC.InletOpen` and `eval.new` by
      `RPC.EvalNew`. */
  lemma ServiceMethodExamples(inletOpen: string, evalNew: string)
    requires inletOpen == "inlet.open" && evalNew == "eval.new"
    ensures ServiceMethodName("RPC", inletOpen) == "RPC.InletOpen"
    ensures ServiceMethodName("RPC", evalNew) == "RPC.EvalNew"
  {
    ServiceMethodNameOfTwoPieces("RPC", inletOpen, "inlet", "open");
    TitleOfWord("inlet");
    TitleOfWord("open");
    ServiceMethodNameOfTwoPieces("RPC", evalNew, "eval", "new");
    TitleOfWord("eval");
    TitleOfWord("new");
  }

  /** The rewriting as the codec does it: the prefix and a dot, then each
      dot-separated piece title-cased, appended in turn. */
  method BuildServiceMethod(prefix: string, methodName: string) returns (name: string)
    ensures name == ServiceMethodName(prefix, methodName)
  {
    var pieces := Split(methodName);
    name := prefix + ".";
    var i := 0;
    while i < |pieces|
      invariant 0 <= i <= |pieces|
      invariant name + ConcatTitled(pieces[i..]) == ServiceMethodName(prefix, methodName)
    {
      assert pieces[i..][1..] == pieces[i + 1..];
      name := name + Title(pieces[i]);
      i := i + 1;
    }
  }

  // ---- the codec ----

  /** A decoded request; `params` and `id` are raw JSON text, absent when
      the request has none. */
  datatype ServerRequest = ServerRequest(methodName: string, params: Option<string>, id: Option<string>)

  const ResetRequest := ServerRequest("", None, None)

  /** What one read from the connection gave. */
  datatype Decoded = Decoded(req: ServerRequest) | DecodeError(msg: string)

  /** The header handed to the RPC server. */
  datatype RpcRequest = RpcRequest(serviceMethod: string, seqNo: nat)

  /** The response written to the connection; `result` and `error` are
      omitted when absent. */
  datatype ServerResponse = ServerResponse(id: string, result: Option<string>, error: Option<string>)

  const InvalidSequenceText := "invalid sequence number in response"

  /** The response to a request whose recorded id is `id`: that id, or JSON
      null when there was none; the reply when no error is reported,
      otherwise the error alone. */
  function ResponseFor(id: Option<string>, error: string, reply: string): (resp: ServerResponse)
    ensures resp.id == if id.Some? then id.value else "null"
    ensures resp.result.Some? <==> error == ""
    ensures resp.error.Some? <==> error != ""
    ensures resp.result.Some? ==> resp.result.value == reply
    ensures resp.error.Some? ==> resp.error.value == error
  {
    ServerResponse(
      if id.Some? then id.value else "null",
      if error == "" then Some(reply) else None,
      if error == "" then None else Some(error))
  }

  class ServerCodec {
    const rpcPrefix: string

    /** The request being read. */
    var req: ServerRequest

    /** The last sequence number handed out (a uint64). */
    var seqNo: nat

    /** Client ids of the requests not yet answered, by sequence number. */
    var pending: map<nat, Option<string>>

    /** Everything encoded onto the connection so far. */
    var written: seq<ServerResponse>

    ghost predicate Valid()
      reads this
    {
      seqNo < Uint64Modulus
    }

    /** Before the counter wraps: every pending number has been handed out. */
    ghost predicate Unwrapped()
      reads this
    {
      forall k :: k in pending ==> 1 <= k <= seqNo
    }

    constructor (prefix: string)
      ensures Valid() && Unwrapped()
      ensures rpcPrefix == prefix && req == ResetRequest && seqNo == 0 && pending == map[] && written == []
    {
      rpcPrefix := prefix;
      req := ResetRequest;
      seqNo := 0;
      pending := map[];
      written := [];
    }

    /** Reads the next request. On a decode error nothing else changes;
        otherwise the request gets the next sequence number, its client id
        is parked under it and cleared from the request. */
    method ReadRequestHeader(decoded: Decoded) returns (r: RpcRequest, err: Option<string>)
      requires Valid()
      modifies this`req, this`seqNo, this`pending
      ensures Valid()
      ensures decoded.DecodeError? ==>
                && err == Some(decoded.msg) && r == RpcRequest("", 0)
                && seqNo == old(seqNo) && pending == old(pending) && req == ResetRequest
      ensures decoded.Decoded? ==>
                && err == None
                && seqNo == (old(seqNo) + 1) % Uint64Modulus
                && pending == old(pending)[seqNo := decoded.req.id]
                && req == decoded.req.(id := None)
                && r == RpcRequest(ServiceMethodName(rpcPrefix, decoded.req.methodName), seqNo)
      ensures old(Unwrapped()) && old(seqNo) + 1 < Uint64Modulus ==>
                && Unwrapped()
                && (decoded.Decoded? ==> seqNo !in old(pending))
    {
      req := ResetRequest;
      if decoded.DecodeError? {
        return RpcRequest("", 0), Some(decoded.msg);
      }
      req := decoded.req;
      var name := BuildServiceMethod(rpcPrefix, req.methodName);
      seqNo := (seqNo + 1) % Uint64Modulus;
      pending := pending[seqNo := req.id];
      req := req.(id := None);
      r := RpcRequest(name, seqNo);
      err := None;
    }

    /** The parameters handed to the unmarshaller, if any: none when the
        caller wants no body or the request has no params. */
    method ReadRequestBody(hasTarget: bool, unmarshal: string -> Option<string>) returns (decodedFrom: Option<string>, err: Option<string>)
      ensures !hasTarget || req.params.None? ==> decodedFrom == None && err == None
      ensures hasTarget && req.params.Some? ==>
                decodedFrom == req.params && err == unmarshal(req.params.value)
    {
      if !hasTarget {
        return None, None;
      }
      if req.params.None? {
        return None, None;
      }
      decodedFrom := req.params;
      err := unmarshal(req.params.value);
    }

    /** Answers the request numbered `respSeq`: an unknown number is an
        error and changes nothing; otherwise the entry leaves the pending
        table and the response carrying its client id is written. */
    method WriteResponse(respSeq: nat, error: string, reply: string) returns (err: Option<string>)
      modifies this`pending, this`written
      ensures respSeq !in old(pending) ==>
                err == Some(InvalidSequenceText) && pending == old(pending) && written == old(written)
      ensures respSeq in old(pending) ==>
                && err == None
                && pending == old(pending) - {respSeq}
                && written == old(written) + [ResponseFor(old(pending)[respSeq], error, reply)]
    {
      if respSeq !in pending {
        return Some(InvalidSequenceText);
      }
      var id := pending[respSeq];
      pending := pending - {respSeq};
      written := written + [ResponseFor(id, error, reply)];
      err := None;
    }
  }

  /** One request through a fresh codec: it is numbered 1 and dispatched to
      its rewritten name; its answer carries the client's id (or null); a
      second answer to the same number is refused. */
  method RequestRoundTrip(prefix: string, request: ServerRequest, reply: string)
    returns (header: RpcRequest, response: ServerResponse, again: Option<string>)
    ensures header == RpcRequest(ServiceMethodName(prefix, request.methodName), 1)
    ensures response == ResponseFor(request.id, "", reply)
    ensures response.id == (if request.id.Some? then request.id.value else "null")
    ensures response.result == Some(reply) && response.error == None
    ensures again == Some(InvalidSequenceText)
  {
    var codec := new ServerCodec(prefix);
    var err;
    header, err := codec.ReadRequestHeader(Decoded(request));
    err := codec.WriteResponse(header.seqNo, "", reply);
    response := codec.written[0];
    again := codec.WriteResponse(header.seqNo, "", reply);
  }

  /** Two requests answered in the opposite order each get their own id
      back, and an error answer carries the error and no result. */
  method CrossedResponses(first: ServerRequest, second: ServerRequest, failure: string)
    returns (answerToSecond: ServerResponse, answerToFirst: ServerResponse)
    requires failure != ""
    ensures answerToSecond == ResponseFor(second.id, "", "ok")
    ensures answerToFirst == ResponseFor(first.id, failure, "")
    ensures answerToFirst.result == None && answerToFirst.error == Some(failure)
  {
    var codec := new ServerCodec("RPC");
    var h1, h2, err;
    h1, err := codec.ReadRequestHeader(Decoded(first));
    h2, err := codec.ReadRequestHeader(Decoded(second));
    err := codec.WriteResponse(h2.seqNo, "", "ok");
    err := codec.WriteResponse(h1.seqNo, failure, "");
    answerToSecond := codec.written[0];
    answerToFirst := codec.written[1];
  }
}
