/** The actor scope of a required replay: who may see whose recorded answer. */
module ReplayScope {
  import opened Options
  import opened Decimals

  /** `address` is the normal form of the client address, None when it does not parse. */
  datatype Caller = Caller(authenticated: bool, actorId: int, source: string, address: Option<string>)

  const COOKIE := "cookie"
  const BEARER := "bearer"

  predicate Accepted(c: Caller) {
    if c.authenticated then c.actorId > 0 && (c.source == COOKIE || c.source == BEARER)
    else c.actorId == 0 && c.address.Some?
  }

  function ActorText(id: nat, source: string): string { "actor:" + Decimal(id) + ":" + source }

  function AnonymousText(digest: string): string { "anonymous:" + digest }

  /** `routeReplayActorScope`; `digest` is the hexadecimal hash of an address. */
  function ActorScope(c: Caller, digest: string -> string): Option<string> {
    if c.authenticated then
      if c.actorId <= 0 || (c.source != COOKIE && c.source != BEARER) then None
      else Some(ActorText(c.actorId, c.source))
    else if c.actorId != 0 || c.address.None? then None
    else Some(AnonymousText(digest(c.address.value)))
  }

  /** The same actor with the same credential, or the same anonymous address. */
  predicate SameCaller(a: Caller, b: Caller) {
    && a.authenticated == b.authenticated
    && if a.authenticated then a.actorId == b.actorId && a.source == b.source else a.address == b.address
  }

  lemma Parts(prefix: string, middle: string, suffix: string)
    ensures var s := prefix + middle + suffix;
            && s[|prefix|..|s| - |suffix|] == middle && s[|s| - |suffix|..] == suffix
  {
  }

  lemma ActorId(id: nat, source: string)
    requires |source| == 6
    ensures var scope := ActorText(id, source);
            |scope| >= 13 && scope[6..|scope| - 7] == Decimal(id)
  {
    var prefix, suffix := "actor:", ":" + source;
    assert ActorText(id, source) == prefix + Decimal(id) + suffix;
    Parts(prefix, Decimal(id), suffix);
  }

  lemma ActorSource(id: nat, source: string)
    requires |source| == 6
    ensures var scope := ActorText(id, source);
            |scope| >= 13 && scope[|scope| - 6..] == source
  {
    Parts("actor:" + Decimal(id), ":", source);
  }

  lemma ActorTextEqualIff(id: nat, source: string, id': nat, source': string)
    requires |source| == |source'| == 6
    ensures ActorText(id, source) == ActorText(id', source') <==> id == id' && source == source'
  {
    ActorId(id, source);
    ActorId(id', source');
    ActorSource(id, source);
    ActorSource(id', source');
    DecimalValue(id);
    DecimalValue(id');
  }

  lemma AnonymousTextEqualIff(a: string, b: string)
    ensures AnonymousText(a) == AnonymousText(b) <==> a == b
  {
    Parts("anonymous:", a, []);
    Parts("anonymous:", b, []);
    assert AnonymousText(a) == "anonymous:" + a + [] && AnonymousText(b) == "anonymous:" + b + [];
  }

  lemma TextsDiffer(id: nat, source: string, digest: string)
    ensures ActorText(id, source) != AnonymousText(digest)
  {
    assert ActorText(id, source)[1] == 'c' && AnonymousText(digest)[1] == 'n';
  }

  /** Two accepted callers share a scope iff they are the same actor by the same
      credential, or the same anonymous address; everybody else is refused. */
  lemma ScopeEqualIff(a: Caller, b: Caller, digest: string -> string)
    requires forall x, y :: digest(x) == digest(y) ==> x == y
    ensures ActorScope(a, digest).Some? <==> Accepted(a)
    ensures Accepted(a) ==>
              ActorScope(a, digest).value == if a.authenticated then "actor:" + Decimal(a.actorId) + ":" + a.source
                                             else "anonymous:" + digest(a.address.value)
    ensures Accepted(a) && Accepted(b) ==> (ActorScope(a, digest) == ActorScope(b, digest) <==> SameCaller(a, b))
  {
    if Accepted(a) && Accepted(b) {
      match (a.authenticated, b.authenticated)
      case (true, true) => ActorTextEqualIff(a.actorId, a.source, b.actorId, b.source);
      case (true, false) => TextsDiffer(a.actorId, a.source, digest(b.address.value));
      case (false, true) => TextsDiffer(b.actorId, b.source, digest(a.address.value));
      case (false, false) => AnonymousTextEqualIff(digest(a.address.value), digest(b.address.value));
    }
  }
}
