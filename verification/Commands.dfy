/** Command identity: a domain-separated digest of kind and exact payload. */
module Commands {
  import opened Bytes

  const COMMAND_DIGEST_DOMAIN: Buf := Ascii("bullet-kernel.command-request.v1")

  datatype Request = Request(key: Buf, kind: Buf, payload: Buf)
  datatype Record = Record(id: Buf, key: Buf, kind: Buf, payload: Buf, digest: Digest)

  function DigestInput(kind: Buf, payload: Buf): Buf { FrameAll([COMMAND_DIGEST_DOMAIN, kind, payload]) }

  function CommandId(h: Hash, key: Buf): Buf { Ascii("cmd_") + ToHex(h(Ascii("cmd:") + key)) }

  method CommandDigest(h: Hash, r: Request) returns (d: Digest)
    ensures d == h(DigestInput(r.kind, r.payload))
  {
    var framed := BuildFrames([COMMAND_DIGEST_DOMAIN, r.kind, r.payload]);
    d := h(framed);
  }

  /** A stored record that is consistent with itself (`validate`). */
  predicate RecordValid(h: Hash, c: Record) {
    c.id == CommandId(h, c.key) && c.digest == h(DigestInput(c.kind, c.payload))
  }

  predicate Matches(h: Hash, r: Request, c: Record) {
    && RecordValid(h, c)
    && c.id == CommandId(h, r.key) && c.key == r.key && c.kind == r.kind && c.payload == r.payload
    && c.digest == h(DigestInput(r.kind, r.payload))
  }

  /** Equal command digests mean equal kind and payload: nothing can move
      between the two fields. */
  lemma DigestBinds(h: Hash, a: Request, b: Request)
    requires Fits(a.kind) && Fits(a.payload) && Fits(b.kind) && Fits(b.payload)
    requires CollisionFreeOn(h, {DigestInput(a.kind, a.payload), DigestInput(b.kind, b.payload)})
    requires h(DigestInput(a.kind, a.payload)) == h(DigestInput(b.kind, b.payload))
    ensures a.kind == b.kind && a.payload == b.payload
  {
    var x, y := [COMMAND_DIGEST_DOMAIN, a.kind, a.payload], [COMMAND_DIGEST_DOMAIN, b.kind, b.payload];
    FrameAllInjective(x, y);
    assert x[1] == y[1] && x[2] == y[2];
  }

  /** A valid record answers exactly the requests with its key and digest. */
  lemma MatchIsKeyAndDigest(h: Hash, r: Request, c: Record)
    requires RecordValid(h, c)
    requires Fits(r.kind) && Fits(r.payload) && Fits(c.kind) && Fits(c.payload)
    requires CollisionFreeOn(h, {DigestInput(r.kind, r.payload), DigestInput(c.kind, c.payload)})
    ensures Matches(h, r, c) <==> c.key == r.key && c.digest == h(DigestInput(r.kind, r.payload))
  {
    if c.key == r.key && c.digest == h(DigestInput(r.kind, r.payload)) {
      DigestBinds(h, r, Request(c.key, c.kind, c.payload));
    }
  }
}
