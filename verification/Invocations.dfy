/**
 Signed invocations. Signatures are ideal: a token says who signed it, and its signature is valid when
 that is its issuer. Text is its UTF-8 bytes, so text and payloads can be written one after the other.
 */
module Invocations {
  import opened Hashes
  import opened Options
  import opened Strings

  datatype Entity = Entity(publicKey: string, contractId: string, linkName: string)

  datatype Metadata = Metadata(targetUrl: string, originUrl: string, hash: Digest)

  datatype Claims = Claims(issuer: string, subject: string, metadata: Option<Metadata>)

  datatype Token = Garbled | Token(claims: Claims, signedBy: string, expired: bool, notYet: bool)

  datatype Invocation = Invocation(
    origin: Entity,
    target: Entity,
    operation: string,
    msg: string,
    id: string,
    token: Token,
    hostId: string,
    contentLength: nat
  )

  datatype Verdict = Accepted | Rejected(reason: string)

  const URL_SCHEME := "wasmbus"

  /** Actors are known by their key alone; providers also by contract and link name, made fit for a URL. */
  function Url(e: Entity): string {
    if e.publicKey != "" && UpperChar(e.publicKey[0]) == 'M' then URL_SCHEME + "://" + e.publicKey
    else
      URL_SCHEME + "://" + Lower(ReplaceChar(ReplaceChar(e.contractId, ':', '/'), ' ', '_')) + "/"
      + Lower(ReplaceChar(e.linkName, ' ', '_')) + "/" + e.publicKey
  }

  function OperationUrl(target: Entity, operation: string): string {
    Url(target) + "/" + operation
  }

  function TargetUrl(inv: Invocation): string {
    OperationUrl(inv.target, inv.operation)
  }

  function InvocationHash(targetUrl: string, originUrl: string, msg: string, operation: string): Digest {
    Sha256(originUrl + targetUrl + operation + msg)
  }

  function HashOf(inv: Invocation): Digest {
    InvocationHash(TargetUrl(inv), Url(inv.origin), inv.msg, inv.operation)
  }

  /** The digest is fed a buffer at a time; a read fills at most the buffer and only comes back empty at the end. */
  method Sha256Digest(input: string) returns (digest: Digest)
    ensures digest == Sha256(input)
  {
    var fed, position := "", 0;
    while true
      invariant position <= |input| && fed == input[..position]
      decreases |input| - position
    {
      var count := if |input| - position < 1024 then |input| - position else 1024;
      var buffer := input[position..position + count];
      position := position + count;
      if count == 0 {
        break;
      }
      fed := fed + buffer[..count];
    }
    digest := Sha256(fed);
  }

  function SignedMetadata(origin: Entity, target: Entity, operation: string, msg: string): Metadata {
    var targetUrl := OperationUrl(target, operation);
    Metadata(targetUrl, Url(origin), InvocationHash(targetUrl, Url(origin), msg, operation))
  }

  function New(hostKey: string, origin: Entity, target: Entity, operation: string, msg: string, id: string): Invocation
  {
    var claims := Claims(hostKey, id, Some(SignedMetadata(origin, target, operation, msg)));
    Invocation(origin, target, operation, msg, id, Token(claims, hostKey, false, false), hostKey, |msg|)
  }

  /** A key that is neither of a host's first letter nor of a key's length is refused. */
  predicate KeyLooksRight(key: string) {
    (key != "" && key[0] == 'N') || |key| == 56
  }

  function ValidateAntiforgery(inv: Invocation, validIssuers: set<string>): Verdict {
    if inv.token.Garbled? then Rejected("token")
    else if inv.token.expired then Rejected("expired")
    else if inv.token.signedBy != inv.token.claims.issuer then Rejected("signature")
    else if inv.token.notYet then Rejected("not yet")
    else if inv.token.claims.metadata.None? then Rejected("metadata")
    else
      var signed := inv.token.claims.metadata.value;
      if inv.msg != "" && signed.hash != HashOf(inv) then Rejected("hash")
      else if !KeyLooksRight(inv.hostId) then Rejected("host id")
      else if inv.token.claims.issuer !in validIssuers then Rejected("issuer")
      else if signed.targetUrl != TargetUrl(inv) then Rejected("target")
      else if signed.originUrl != Url(inv.origin) then Rejected("origin")
      else Accepted
  }

  /** The form a large invocation travels in: signed with its payload, sent without it. */
  function Emptied(inv: Invocation): Invocation {
    inv.(msg := "")
  }

  /** What was built is accepted, whole or emptied, by whoever trusts its signer's key. */
  lemma BuiltIsAcceptedIff(hostKey: string, origin: Entity, target: Entity, operation: string, msg: string, id: string,
          validIssuers: set<string>)
    ensures var inv := New(hostKey, origin, target, operation, msg, id);
      && (ValidateAntiforgery(inv, validIssuers).Accepted? <==> KeyLooksRight(hostKey) && hostKey in validIssuers)
      && ValidateAntiforgery(Emptied(inv), validIssuers) == ValidateAntiforgery(inv, validIssuers)
  {
  }

  /** Acceptance always rests on a live token signed by a trusted issuer. */
  lemma AcceptedIsSigned(inv: Invocation, validIssuers: set<string>)
    requires ValidateAntiforgery(inv, validIssuers).Accepted?
    ensures inv.token.Token? && inv.token.signedBy in validIssuers && !inv.token.expired && !inv.token.notYet
    ensures inv.token.claims.metadata.Some? && inv.token.claims.metadata.value.targetUrl == TargetUrl(inv)
    ensures inv.token.claims.metadata.value.originUrl == Url(inv.origin)
  {
  }

  /** Which invocations a token signed for one invocation can carry; their ids are not looked at. */
  lemma AcceptedWithTokenIff(inv: Invocation, validIssuers: set<string>, hostKey: string, origin: Entity,
          target: Entity, operation: string, msg: string, id: string)
    requires inv.token == New(hostKey, origin, target, operation, msg, id).token
    ensures ValidateAntiforgery(inv, validIssuers).Accepted? <==>
      && KeyLooksRight(inv.hostId) && hostKey in validIssuers
      && Url(inv.origin) == Url(origin)
      && TargetUrl(inv) == OperationUrl(target, operation)
      && (inv.msg == "" || inv.operation + inv.msg == operation + msg)
  {
    if Url(inv.origin) == Url(origin) && TargetUrl(inv) == OperationUrl(target, operation) {
      var head := Url(origin) + OperationUrl(target, operation);
      assert head + inv.operation + inv.msg == head + (inv.operation + inv.msg);
      assert head + operation + msg == head + (operation + msg);
      assert (head + (inv.operation + inv.msg))[|head|..] == inv.operation + inv.msg;
      assert (head + (operation + msg))[|head|..] == operation + msg;
    }
  }

  /** The last '/' of a URL with an operation behind it is the one before the operation, if the operation has none. */
  lemma OperationIsLastSegment(u: string, o: string, v: string, p: string)
    requires u + "/" + o == v + "/" + p && '/' !in o && '/' !in p
    ensures u == v && o == p
  {
    var whole := u + "/" + o;
    assert whole == v + "/" + p;
    assert whole[|u|] == '/' && whole[|u| + 1..] == o && whole[..|u|] == u;
    assert whole[|v|] == '/' && whole[|v| + 1..] == p && whole[..|v|] == v;
  }

  /** An accepted invocation with a payload is the signed one: same URLs, same operation, same payload. */
  lemma AcceptanceFixesInvocation(inv: Invocation, validIssuers: set<string>, hostKey: string, origin: Entity,
          target: Entity, operation: string, msg: string, id: string)
    requires inv.token == New(hostKey, origin, target, operation, msg, id).token
    requires ValidateAntiforgery(inv, validIssuers).Accepted?
    requires '/' !in inv.operation && '/' !in operation
    ensures Url(inv.origin) == Url(origin) && Url(inv.target) == Url(target) && inv.operation == operation
    ensures inv.msg != "" ==> inv.msg == msg
  {
    AcceptedWithTokenIff(inv, validIssuers, hostKey, origin, target, operation, msg, id);
    OperationIsLastSegment(Url(inv.target), inv.operation, Url(target), operation);
    if inv.msg != "" {
      assert (inv.operation + inv.msg)[|operation|..] == inv.msg;
      assert (operation + msg)[|operation|..] == msg;
    }
  }

  /**
   With a '/' in an operation name, part of the operation can pass for payload, and part of the target for
   operation.
   */
  lemma SlashedOperationsAreAmbiguous(hostKey: string, origin: Entity, id: string, msg: string)
    requires KeyLooksRight(hostKey)
    ensures
      var signed := New(hostKey, origin, Entity("M1", "", ""), "b/b", msg, id);
      var other := signed.(target := Entity("M1/b", "", ""), operation := "b", msg := "/b" + msg);
      ValidateAntiforgery(other, {hostKey}).Accepted? && other.operation != signed.operation && other.msg != signed.msg
  {
    var signed := New(hostKey, origin, Entity("M1", "", ""), "b/b", msg, id);
    var other := signed.(target := Entity("M1/b", "", ""), operation := "b", msg := "/b" + msg);
    assert UpperChar('M') == 'M';
    assert Url(Entity("M1", "", "")) == "wasmbus" + "://" + "M1";
    assert TargetUrl(other) == "wasmbus" + "://" + "M1/b" + "/" + "b";
    assert TargetUrl(other) == OperationUrl(Entity("M1", "", ""), "b/b");
    assert "b" + ("/b" + msg) == "b/b" + msg;
    AcceptedWithTokenIff(other, {hostKey}, hostKey, origin, Entity("M1", "", ""), "b/b", msg, id);
    assert |other.msg| != |signed.msg|;
  }
}
