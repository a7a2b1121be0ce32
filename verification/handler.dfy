/** The request handler of api/interactions.js: the authentication gate in
    front of the dispatcher. Everything the handler borrows from libraries
    and the runtime is a field of `Library`, so the handler is a pure
    function of the library, the configured key and the request. */
module Handler {
  import opened Wrappers
  import opened Interaction
  import Hex
  import Dispatch

  /** Ed25519 sizes that the signature library insists on before it checks
      anything: a detached signature of 64 bytes, a public key of 32. */
  const SignatureBytes: nat := 64
  const PublicKeyBytes: nat := 32

  const MissingKey: Outcome := Text(500, "missing DISCORD_PUBLIC_KEY")
  const MissingHeaders: Outcome := Text(401, "missing signature headers")
  const BadSignature: Outcome := Text(401, "bad signature")

  /** The foreign operations the handler calls.
      - `utf8`: encoding a string as UTF-8 bytes (TextEncoder.encode);
      - `decodeHex`: decoding hex digits into bytes (Buffer.from(_, 'hex'));
      - `verify`: the Ed25519 detached check proper, on correctly sized
        inputs (tweetnacl's nacl.sign.detached.verify);
      - `parse`: JSON.parse of the body followed by reading the fields the
        dispatcher looks at; None when parsing throws or the body is `null`. */
  datatype Library = Library(
    utf8: string -> seq<byte>,
    decodeHex: string -> seq<byte>,
    verify: (seq<byte>, seq<byte>, seq<byte>) -> bool,
    parse: string -> Option<Interaction>)

  /** The text that is signed: the timestamp, then the body. */
  function SignedText(timestamp: string, body: string): (m: string)
    ensures |m| == |timestamp| + |body|
    ensures m[..|timestamp|] == timestamp && m[|timestamp|..] == body
  {
    timestamp + body
  }

  /** The hex header or key value as bytes: one "0x" stripped, then decoded. */
  function FromHex(lib: Library, hex: string): (bytes: seq<byte>) {
    lib.decodeHex(Hex.StripPrefix(hex))
  }

  /** The library's detached verification. It throws when the signature or
      key has the wrong length; otherwise it answers the Ed25519 check. */
  function DetachedVerify(lib: Library, msg: seq<byte>, sig: seq<byte>, key: seq<byte>): (r: Completion<bool>) {
    if |sig| != SignatureBytes then Thrown
    else if |key| != PublicKeyBytes then Thrown
    else Normal(lib.verify(msg, sig, key))
  }

  /** The verification the handler performs on a request whose key and
      headers are present. */
  function CheckSignature(lib: Library, key: string, req: Request): (r: Completion<bool>)
    requires req.signature.Some? && req.timestamp.Some?
  {
    DetachedVerify(lib,
      lib.utf8(SignedText(req.timestamp.value, req.body)),
      FromHex(lib, req.signature.value),
      FromHex(lib, key))
  }

  /** Reference description of an authentic request: a key is configured, both
      headers are present, the decoded signature and key have the sizes the
      library accepts, and the signature verifies over timestamp-then-body. */
  ghost predicate Authentic(lib: Library, key: Option<string>, req: Request) {
    Truthy(key) && Truthy(req.signature) && Truthy(req.timestamp) &&
    var sig := FromHex(lib, req.signature.value);
    var pk := FromHex(lib, key.value);
    |sig| == SignatureBytes && |pk| == PublicKeyBytes &&
    lib.verify(lib.utf8(req.timestamp.value + req.body), sig, pk)
  }

  /** The handler. `key` is the configured public key (an environment value). */
  function Handle(lib: Library, key: Option<string>, req: Request): (r: Outcome)
    ensures !Truthy(key) ==> r == MissingKey
    ensures Truthy(key) && !(Truthy(req.signature) && Truthy(req.timestamp)) ==>
              r == MissingHeaders
    ensures r.status in {200, 400} ==>
              Authentic(lib, key, req) && lib.parse(req.body).Some? &&
              r == Dispatch.Dispatch(lib.parse(req.body).value)
    ensures r.status in {200, 400, 401, 500}
  {
    if !Truthy(key) then MissingKey
    else if !Truthy(req.signature) || !Truthy(req.timestamp) then MissingHeaders
    else
      match CheckSignature(lib, key.value, req)
      case Thrown => Dispatch.InternalError
      case Normal(ok) =>
        if !ok then BadSignature
        else
          match lib.parse(req.body)
          case None => Dispatch.InternalError
          case Some(i) => Dispatch.Dispatch(i)
  }

  /** An authentic request is dispatched on its parsed body, and one whose
      body does not parse is an internal error. */
  lemma AuthenticDispatched(lib: Library, key: Option<string>, req: Request)
    requires Authentic(lib, key, req)
    ensures lib.parse(req.body).Some? ==>
              Handle(lib, key, req) == Dispatch.Dispatch(lib.parse(req.body).value)
    ensures lib.parse(req.body).None? ==> Handle(lib, key, req) == Dispatch.InternalError
  {
  }

  /** A signature that has the accepted size but does not verify over
      timestamp-then-body is rejected as a bad signature. */
  lemma RejectsBadSignature(lib: Library, key: Option<string>, req: Request)
    requires Truthy(key) && Truthy(req.signature) && Truthy(req.timestamp)
    requires |FromHex(lib, req.signature.value)| == SignatureBytes
    requires |FromHex(lib, key.value)| == PublicKeyBytes
    requires !Authentic(lib, key, req)
    ensures Handle(lib, key, req) == BadSignature
  {
  }

  /** A present signature or key that decodes to the wrong number of bytes
      makes the signature library throw, and the handler's catch answers
      500 `internal error`, not 401: neither verification nor parsing runs. */
  lemma WrongSizeIsInternalError(lib: Library, key: Option<string>, req: Request)
    requires Truthy(key) && Truthy(req.signature) && Truthy(req.timestamp)
    requires |FromHex(lib, req.signature.value)| != SignatureBytes ||
             |FromHex(lib, key.value)| != PublicKeyBytes
    ensures Handle(lib, key, req) == Dispatch.InternalError
  {
  }

  /** The outcome is a reply or "unhandled" exactly when the request is
      authentic and its body parses into something other than a throwing
      `say` lookup. */
  lemma DispatchedIffAuthentic(lib: Library, key: Option<string>, req: Request)
    ensures Handle(lib, key, req).status in {200, 400} <==>
              Authentic(lib, key, req) && lib.parse(req.body).Some? &&
              Dispatch.Dispatch(lib.parse(req.body).value).status != 500
  {
  }

  /** A 401 means the key was configured and either a header was missing or
      a correctly sized signature failed to verify. */
  lemma UnauthorizedIff(lib: Library, key: Option<string>, req: Request)
    ensures Handle(lib, key, req).status == 401 <==>
              Truthy(key) &&
              (!(Truthy(req.signature) && Truthy(req.timestamp)) ||
               (|FromHex(lib, req.signature.value)| == SignatureBytes &&
                |FromHex(lib, key.value)| == PublicKeyBytes &&
                !Authentic(lib, key, req)))
  {
  }

  /** Without a configured key nothing the request carries matters, and none
      of the libraries is consulted. */
  lemma KeyCheckedFirst(lib1: Library, lib2: Library, key: Option<string>, req1: Request, req2: Request)
    requires !Truthy(key)
    ensures Handle(lib1, key, req1) == Handle(lib2, key, req2) == MissingKey
  {
  }

  /** With a header missing, the outcome does not depend on the libraries:
      neither the verifier nor the parser is consulted. */
  lemma HeadersCheckedBeforeVerify(lib1: Library, lib2: Library, key: Option<string>, req: Request)
    requires Truthy(key)
    requires !Truthy(req.signature) || !Truthy(req.timestamp)
    ensures Handle(lib1, key, req) == Handle(lib2, key, req) == MissingHeaders
  {
  }

  /** A request that fails verification does not depend on the parser: no
      parsing and no dispatch happen before the signature is accepted. */
  lemma NoParseBeforeVerify(lib: Library, parse: string -> Option<Interaction>, key: Option<string>, req: Request)
    requires !Authentic(lib, key, req)
    ensures Handle(lib, key, req) == Handle(lib.(parse := parse), key, req)
    ensures Handle(lib, key, req).status in {401, 500}
  {
  }

  /** The verifier sees the timestamp first and the body second: two requests
      whose timestamp-then-body texts agree get the same verdict, whatever
      the split between the two. */
  lemma SignedOverConcatenation(lib: Library, key: Option<string>, req1: Request, req2: Request)
    requires req1.signature == req2.signature
    requires req1.timestamp.Some? && req2.timestamp.Some?
    requires Truthy(req1.timestamp) == Truthy(req2.timestamp)
    requires SignedText(req1.timestamp.value, req1.body) == SignedText(req2.timestamp.value, req2.body)
    ensures Authentic(lib, key, req1) <==> Authentic(lib, key, req2)
  {
  }

  /** A "0x" prefix on a non-empty signature header or key does not change
      the outcome. (On an empty one it does: "0x" alone passes the presence
      checks that "" fails.) */
  lemma HexPrefixIrrelevant(lib: Library, key: string, req: Request)
    requires key != "" && !Hex.HasPrefix(key)
    requires Truthy(req.signature) && !Hex.HasPrefix(req.signature.value)
    ensures Handle(lib, Some(Hex.Prefix + key), req) == Handle(lib, Some(key), req)
    ensures Handle(lib, Some(key), req.(signature := Some(Hex.Prefix + req.signature.value))) ==
            Handle(lib, Some(key), req)
  {
    Hex.StripAfterPrepend(key);
    Hex.StripAfterPrepend(req.signature.value);
    assert FromHex(lib, Hex.Prefix + key) == FromHex(lib, key);
    assert FromHex(lib, Hex.Prefix + req.signature.value) == FromHex(lib, req.signature.value);
  }

  /** End to end: an authentic request whose body is the `help` command is
      answered with a reply naming every registered command. */
  lemma AuthenticHelp(lib: Library, key: Option<string>, req: Request)
    requires Authentic(lib, key, req)
    requires lib.parse(req.body).Some?
    requires lib.parse(req.body).value.kind == Some(Dispatch.ApplicationCommand)
    requires Dispatch.CommandName(lib.parse(req.body).value) == Some("help")
    ensures Handle(lib, key, req).status == 200
    ensures Handle(lib, key, req).Json? && Handle(lib, key, req).reply.content.Some?
    ensures forall c :: c in Dispatch.Registry ==>
              Dispatch.Contains(Handle(lib, key, req).reply.content.value, "/" + c)
  {
    Dispatch.CommandReplies(lib.parse(req.body).value);
    Dispatch.HelpListsEveryCommand();
  }
}
