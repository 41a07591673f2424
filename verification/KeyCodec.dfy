/** The identifiers that carry several values in one string: the key under which a resource is
    published in the key-value store, and the stream-management identifier given to a client. */
module KeyCodec {
  import opened Options
  import opened Text

  const PREFIX := "r://"

  function ResourceKey(user: string, resource: string, inst: string): string {
    PREFIX + user + "@" + resource + "/" + inst
  }

  function TrimPrefix(s: string, p: string): string {
    if p <= s then s[|p|..] else s
  }

  predicate HasSuffix(s: string, p: string) {
    |p| <= |s| && s[|s| - |p|..] == p
  }

  function ExtractKeyInfo(key: string): Option<(string, string, string)> {
    var ss := Split(TrimPrefix(key, PREFIX), '@');
    if |ss| != 2 then None
    else
      var rest := Split(ss[1], '/');
      if |rest| != 2 then None else Some((ss[0], rest[0], rest[1]))
  }

  predicate IsLocalKey(key: string, me: string) { HasSuffix(key, "/" + me) }

  /** A key gives back its own triple or nothing, never another triple; it gives it back exactly
      when no part holds the separators. */
  lemma ExtractInvertsKey(user: string, resource: string, inst: string)
    ensures ExtractKeyInfo(ResourceKey(user, resource, inst)) ==
            if '@' !in user && '@' !in resource && '@' !in inst && '/' !in resource && '/' !in inst
            then Some((user, resource, inst)) else None
  {
    var key := ResourceKey(user, resource, inst);
    var tail := resource + "/" + inst;
    var body := user + "@" + tail;
    assert key == PREFIX + body;
    assert TrimPrefix(key, PREFIX) == body;
    SplitCount(user, tail, '@');
    SplitSome(user, '@');
    SplitSome(tail, '@');
    assert '@' in tail <==> '@' in resource || '@' in inst;
    if '@' !in user && '@' !in tail {
      SplitHead(user, tail, '@');
      SplitNone(tail, '@');
      SplitCount(resource, inst, '/');
      SplitSome(resource, '/');
      SplitSome(inst, '/');
      if '/' !in resource && '/' !in inst {
        SplitHead(resource, inst, '/');
        SplitNone(inst, '/');
      }
    }
  }

  /** A node recognises exactly the keys it wrote itself. */
  lemma LocalKeyIsOwn(user: string, resource: string, inst: string, me: string)
    requires '/' !in inst && '/' !in me
    ensures IsLocalKey(ResourceKey(user, resource, inst), me) <==> inst == me
  {
    var key := ResourceKey(user, resource, inst);
    var head := PREFIX + user + "@" + resource;
    assert key == head + ['/'] + inst;
    SplitLast(head, inst, '/');
    if IsLocalKey(key, me) {
      var front := key[..|key| - |me| - 1];
      assert key == front + ("/" + me) == front + ['/'] + me;
      SplitLast(front, me, '/');
    } else {
      assert key[|key| - |inst| - 1..] == "/" + inst;
    }
  }

  // ---------------------------------------------------------------------------------------------
  // Stream management identifiers
  // ---------------------------------------------------------------------------------------------

  /** Base64 and the JID syntax, by the laws the code relies on. */
  datatype Codec<!J> = Codec(encode: string -> string, decode: string -> Option<string>,
                             show: J -> string, parse: string -> Option<J>)

  ghost predicate Lawful<J(!new)>(k: Codec<J>) {
    && (forall s :: k.decode(k.encode(s)) == Some(s))
    && (forall j :: k.parse(k.show(j)) == Some(j))
  }

  const NUL: char := 0 as char

  function EncodeSMID<J>(k: Codec<J>, jd: J, nonce: string): string {
    k.encode(k.show(jd) + [NUL] + nonce)
  }

  function DecodeSMID<J>(k: Codec<J>, id: string): Option<(J, string)> {
    match k.decode(id)
    case None => None
    case Some(b) =>
      var ss := Split(b, NUL);
      if |ss| != 2 then None
      else match k.parse(ss[0])
        case None => None
        case Some(j) => Some((j, ss[1]))
  }

  /** Decoding undoes encoding exactly when neither the address nor the nonce holds a NUL, and
      fails otherwise. */
  lemma DecodeInvertsSMID<J(!new)>(k: Codec<J>, jd: J, nonce: string)
    requires Lawful(k)
    ensures DecodeSMID(k, EncodeSMID(k, jd, nonce)) ==
            if NUL !in k.show(jd) && NUL !in nonce then Some((jd, nonce)) else None
  {
    var a := k.show(jd);
    SplitCount(a, nonce, NUL);
    SplitSome(a, NUL);
    SplitSome(nonce, NUL);
    if NUL !in a && NUL !in nonce {
      SplitHead(a, nonce, NUL);
      SplitNone(nonce, NUL);
    }
  }

  /** The nonce generator shifts every random draw away from zero, so its nonces always survive. */
  method GenerateNonce(draws: seq<nat>) returns (nonce: string)
    requires forall i :: 0 <= i < |draws| ==> draws[i] < 255
    ensures |nonce| == |draws| && NUL !in nonce
    ensures forall i :: 0 <= i < |draws| ==> nonce[i] as int == draws[i] + 1
  {
    nonce := [];
    for i := 0 to |draws|
      invariant |nonce| == i && NUL !in nonce
      invariant forall k :: 0 <= k < i ==> nonce[k] as int == draws[k] + 1
    {
      nonce := nonce + [(draws[i] + 1) as char];
    }
  }
}
