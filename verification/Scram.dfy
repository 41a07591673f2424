/** SCRAM authentication (RFC 5802) with peppered salts, from the creation of a user to the acceptance
    of a client that knows the password. Hashing and base64 enter only through their laws. */
module Scram {
  import opened Options
  import opened Text
  import opened Sequences

  datatype Variant = SHA1 | SHA256 | SHA512 | SHA3512

  /** The functions the server takes from its libraries. Texts and byte strings are the same thing. */
  datatype Library = Library(
    hmac: (Variant, string, string) -> string,        // variant, message, key
    hash: (Variant, string) -> string,
    kdf: (Variant, string, string, nat) -> string,    // variant, password, salt, iterations
    xor: (char, char) -> char,
    std: string -> string, stdDecode: string -> Option<string>,
    raw: string -> string, rawDecode: string -> Option<string>)

  ghost predicate Lawful(lib: Library) {
    && (forall x :: lib.stdDecode(lib.std(x)) == Some(x))
    && (forall x :: lib.rawDecode(lib.raw(x)) == Some(x))
    && (forall x :: ',' !in lib.std(x))
    && (forall x :: lib.std(x) == "" ==> x == "")
    && (forall v, m, k, m', k' :: |lib.hmac(v, m, k)| == |lib.hmac(v, m', k')|)
  }

  // ---------------------------------------------------------------------------------------------
  // Peppers
  // ---------------------------------------------------------------------------------------------

  const NONE_ID := "none"
  const MIN_KEY_LENGTH := 24

  datatype Keys = Keys(ks: map<string, string>, useID: string)

  function NewKeys(keys: map<string, string>, useID: string): Option<Keys> {
    if |keys| == 0 then Some(Keys(map[], NONE_ID))
    else if useID == "" || (exists k :: k in keys && |keys[k]| < MIN_KEY_LENGTH) || useID !in keys then None
    else Some(Keys(keys, useID))
  }

  function GetKey(k: Keys, id: string): string {
    if k.useID == NONE_ID then "" else if id in k.ks then k.ks[id] else ""
  }

  /** The pepper in use under the first configuration is still there under the second: kept under its id
      with the same value; or none was in use, and the id that stands for none still means none. */
  predicate StillConfigured(keys: map<string, string>, useID: string, keys': map<string, string>, useID': string) {
    if |keys| == 0 || useID == NONE_ID then |keys'| == 0 || useID' == NONE_ID || NONE_ID !in keys'
    else useID' != NONE_ID && useID in keys && useID in keys' && keys'[useID] == keys[useID]
  }

  /** The pepper a user was created with is found again, after any change of configuration, exactly
      when it is still configured. */
  lemma PepperFoundAgain(keys: map<string, string>, useID: string, keys': map<string, string>, useID': string)
    requires NewKeys(keys, useID).Some? && NewKeys(keys', useID').Some?
    ensures var k, k' := NewKeys(keys, useID).value, NewKeys(keys', useID').value;
            GetKey(k', k.useID) == GetKey(k, k.useID) <==> StillConfigured(keys, useID, keys', useID')
  {
    if |keys'| == 0 {
      assert keys'.Keys == {} by { assert |keys'.Keys| == |keys'|; }
    } else if NONE_ID in keys' {
      assert |keys'[NONE_ID]| >= MIN_KEY_LENGTH;
    }
    if |keys| != 0 {
      assert |keys[useID]| >= MIN_KEY_LENGTH;
    }
  }

  /** It happens: a user made under a key called "none" is stored without pepper, and another key in use
      brings that pepper in. */
  lemma NoneIsNotFoundAgain(none: string, other: string)
    requires |none| >= MIN_KEY_LENGTH && |other| >= MIN_KEY_LENGTH
    ensures var keys, keys' := map[NONE_ID := none], map[NONE_ID := none, "k" := other];
            && NewKeys(keys, NONE_ID).Some? && NewKeys(keys', "k").Some?
            && GetKey(NewKeys(keys, NONE_ID).value, NONE_ID) == "" && GetKey(NewKeys(keys', "k").value, NONE_ID) == none
  {
    assert "k" != NONE_ID by { assert |"k"| != |NONE_ID|; }
    var keys, keys' := map[NONE_ID := none], map[NONE_ID := none, "k" := other];
    assert NONE_ID in keys && "k" in keys';
    assert |keys| != 0 && |keys'| != 0;
  }

  /** Without a key called "none", keeping the earlier keys is enough. */
  lemma KeptKeysSuffice(keys: map<string, string>, useID: string, keys': map<string, string>, useID': string)
    requires NewKeys(keys, useID).Some? && NewKeys(keys', useID').Some?
    requires NONE_ID !in keys && NONE_ID !in keys'
    ensures StillConfigured(keys, useID, keys', useID') <==>
            |keys| == 0 || (useID in keys' && keys'[useID] == keys[useID])
  {
    if |keys'| == 0 {
      assert keys'.Keys == {} by { assert |keys'.Keys| == |keys'|; }
    }
  }

  // ---------------------------------------------------------------------------------------------
  // What is stored for a user
  // ---------------------------------------------------------------------------------------------

  const ITERATION_COUNT: nat := 15_000

  datatype User = User(username: string, sha1: string, sha256: string, sha512: string, sha3512: string,
                       salt: string, iterations: nat, pepperID: string)

  /** upsertUser with a random salt. */
  function MakeUser(lib: Library, username: string, password: string, salt: string, peppers: Keys): User {
    var peppered := salt + GetKey(peppers, peppers.useID);
    User(username,
         lib.raw(lib.kdf(SHA1, password, peppered, ITERATION_COUNT)),
         lib.raw(lib.kdf(SHA256, password, peppered, ITERATION_COUNT)),
         lib.raw(lib.kdf(SHA512, password, peppered, ITERATION_COUNT)),
         lib.raw(lib.kdf(SHA3512, password, peppered, ITERATION_COUNT)),
         lib.raw(salt), ITERATION_COUNT, peppers.useID)
  }

  function StoredHash(u: User, v: Variant): string {
    match v
    case SHA1 => u.sha1
    case SHA256 => u.sha256
    case SHA512 => u.sha512
    case SHA3512 => u.sha3512
  }

  // ---------------------------------------------------------------------------------------------
  // Parameters of the first message
  // ---------------------------------------------------------------------------------------------

  datatype SaslError = IncorrectEncoding | MalformedRequest | NotAuthorized | TemporaryAuthFailure

  datatype Reply = Answer(text: string) | Refusal(reason: SaslError)

  datatype Params = Params(gs2Header: string, cbMechanism: string, params: seq<(string, string)>)

  datatype Parsed = Good(p: Params) | Bad(reason: SaslError)

  function FirstIndex(s: string, c: char): nat {
    if s == "" || s[0] == c then 0 else 1 + FirstIndex(s[1..], c)
  }

  lemma {:induction false} FirstIndexIs(s: string, c: char)
    ensures c in s ==> FirstIndex(s, c) < |s| && s[FirstIndex(s, c)] == c && c !in s[..FirstIndex(s, c)]
    ensures c !in s ==> FirstIndex(s, c) == |s|
  {
    if s != "" && s[0] != c {
      FirstIndexIs(s[1..], c);
      assert s == [s[0]] + s[1..];
      var i := FirstIndex(s[1..], c);
      assert i <= |s[1..]|;
      assert s[..i + 1] == [s[0]] + s[1..][..i];
    }
  }

  lemma {:induction false} FirstIndexUnique(s: string, c: char, j: nat)
    requires j < |s| && s[j] == c && c !in s[..j]
    ensures FirstIndex(s, c) == j
  {
    if j > 0 {
      assert s[..j][0] == s[0];
      assert s[1..][..j - 1] == s[..j][1..];
      FirstIndexUnique(s[1..], c, j - 1);
    }
  }

  function KeyValue(s: string): (string, string) {
    FirstIndexIs(s, '=');
    if '=' in s then (s[..FirstIndex(s, '=')], s[FirstIndex(s, '=') + 1..]) else ("", "")
  }

  function Pair(kv: (string, string)): string { kv.0 + "=" + kv.1 }

  lemma PairOfKeyValue(s: string)
    ensures Pair(KeyValue(s)) == s <==> '=' in s
    ensures ',' !in s ==> ',' !in Pair(KeyValue(s))
  {
    FirstIndexIs(s, '=');
    if '=' in s {
      var i := FirstIndex(s, '=');
      assert s == s[..i] + [s[i]] + s[i + 1..];
    }
  }

  /** scramParameters.String. */
  function Render(ps: seq<(string, string)>): string { Join(Map(Pair, ps), ',') }

  function Attributes(bare: string): seq<(string, string)> { Map(KeyValue, Split(bare, ',')) }

  /** The server rebuilds the client's first message from its parsed attributes; the text is the
      client's own exactly when every attribute has an equals sign. */
  lemma RenderAttributes(bare: string)
    ensures Render(Attributes(bare)) == bare <==> forall a :: a in Split(bare, ',') ==> '=' in a
  {
    var pieces := Split(bare, ',');
    var again := Map(Pair, Attributes(bare));
    JoinSplit(bare, ',');
    SplitPiecesClean(bare, ',');
    forall i | 0 <= i < |pieces| ensures again[i] == Pair(KeyValue(pieces[i])) && ',' !in again[i]
        ensures again[i] == pieces[i] <==> '=' in pieces[i] {
      PairOfKeyValue(pieces[i]);
    }
    SplitJoin(again, ',');
    if forall a :: a in pieces ==> '=' in a {
      assert forall i :: 0 <= i < |pieces| ==> pieces[i] in pieces;
      assert again == pieces;
    } else {
      var a :| a in pieces && '=' !in a;
      var i :| 0 <= i < |pieces| && pieces[i] == a;
      assert again[i] != pieces[i];
      assert again != pieces;
    }
  }

  /** It happens: an attribute without an equals sign comes back as an equals sign alone. */
  lemma BareAttributeIsLost(a: string)
    requires '=' !in a && ',' !in a
    ensures Render(Attributes(a)) == "="
  {
    SplitNone(a, ',');
    assert Attributes(a) == [("", "")];
    assert Pair(("", "")) == "" + "=" + "" == "=";
    assert Map(Pair, Attributes(a)) == ["="];
  }

  function HasPrefixP(s: string): bool { |s| >= 2 && s[..2] == "p=" }

  function Parse(str: string, usesCb: bool): Parsed {
    var sp := Split(str, ',');
    if |sp| < 2 then Bad(IncorrectEncoding)
    else
      var flag, authz := sp[0], sp[1];
      if flag == "p" && !usesCb then Bad(NotAuthorized)
      else if flag != "p" && flag != "n" && flag != "y" && !HasPrefixP(flag) then Bad(MalformedRequest)
      else if HasPrefixP(flag) && !usesCb then Bad(NotAuthorized)
      else if authz != "" && KeyValue(authz).0 != "a" then Bad(MalformedRequest)
      else Good(Params(flag + "," + authz + ",", if HasPrefixP(flag) then flag[2..] else "", Map(KeyValue, sp[2..])))
  }

  function GetParameter(ps: seq<(string, string)>, key: string): string {
    if ps == [] then "" else if ps[0].0 == key then ps[0].1 else GetParameter(ps[1..], key)
  }

  // ---------------------------------------------------------------------------------------------
  // The messages
  // ---------------------------------------------------------------------------------------------

  function XorBytes(lib: Library, a: string, b: string): string
    requires |a| == |b|
  {
    seq(|a|, i requires 0 <= i < |a| => lib.xor(a[i], b[i]))
  }

  function ServerFirst(lib: Library, nonce: string, pepperedSalt: string, iterations: nat): string {
    "r=" + nonce + ",s=" + lib.std(pepperedSalt) + ",i=" + Decimal(iterations)
  }

  function AuthMessage(clientFirstBare: string, serverFirst: string, withoutProof: string): string {
    clientFirstBare + "," + serverFirst + "," + withoutProof
  }

  function WithoutProof(lib: Library, cbindInput: string, nonce: string): string {
    "c=" + lib.std(cbindInput) + ",r=" + nonce
  }

  /** The client's last message, from the salted password (section 3 of RFC 5802). */
  ghost function ClientFinal(lib: Library, v: Variant, salted: string, authMessage: string,
      withoutProof: string): string
    requires Lawful(lib)
  {
    var clientKey := lib.hmac(v, "Client Key", salted);
    var signature := lib.hmac(v, authMessage, lib.hash(v, clientKey));
    withoutProof + ",p=" + lib.std(XorBytes(lib, clientKey, signature))
  }

  function ServerSignature(lib: Library, v: Variant, salted: string, authMessage: string): string {
    lib.hmac(v, authMessage, lib.hmac(v, "Server Key", salted))
  }

  // ---------------------------------------------------------------------------------------------
  // The same messages as the client of RFC 5802 has them
  // ---------------------------------------------------------------------------------------------

  /** HMAC(key, str) in the notation of section 2.2. */
  function Hmac(lib: Library, v: Variant, key: string, str: string): string { lib.hmac(v, str, key) }

  function Attribute(letter: char, value: string): string { [letter, '='] + value }

  predicate Tagged(letter: char, part: string) { |part| >= 2 && part[0] == letter && part[1] == '=' }

  function ClientKey(lib: Library, v: Variant, salted: string): string { Hmac(lib, v, salted, "Client Key") }

  function StoredKey(lib: Library, v: Variant, salted: string): string { lib.hash(v, ClientKey(lib, v, salted)) }

  function ServerKey(lib: Library, v: Variant, salted: string): string { Hmac(lib, v, salted, "Server Key") }

  /** What both sides have seen of an exchange: the client's first message without its header, the server's first
      message, the client's last one without its proof. */
  datatype Transcript = Transcript(clientFirstBare: string, serverFirst: string, finalWithoutProof: string) {
    function Signed(): string { Join([clientFirstBare, serverFirst, finalWithoutProof], ',') }
  }

  function FinalWithoutProof(lib: Library, gs2Header: string, cbData: string, nonce: string): string {
    Join([Attribute('c', lib.std(gs2Header + cbData)), Attribute('r', nonce)], ',')
  }

  /** The client's last message: its proof is the client key, hidden under a signature that the stored key opens. */
  ghost function ProvedFinal(lib: Library, v: Variant, salted: string, t: Transcript): string
    requires Lawful(lib)
  {
    var signature := Hmac(lib, v, StoredKey(lib, v, salted), t.Signed());
    Join([t.finalWithoutProof, Attribute('p', lib.std(XorBytes(lib, ClientKey(lib, v, salted), signature)))], ',')
  }

  lemma ProvedFinalNotEmpty(lib: Library, v: Variant, salted: string, t: Transcript)
    requires Lawful(lib)
    ensures ProvedFinal(lib, v, salted, t) != ""
  {
    var signature := Hmac(lib, v, StoredKey(lib, v, salted), t.Signed());
    JoinTwo(t.finalWithoutProof, Attribute('p', lib.std(XorBytes(lib, ClientKey(lib, v, salted), signature))));
  }

  /** The server's last message as the client verifies it. */
  function Verifier(lib: Library, v: Variant, salted: string, t: Transcript): string {
    Attribute('v', lib.std(Hmac(lib, v, ServerKey(lib, v, salted), t.Signed())))
  }

  lemma JoinTwo(a: string, b: string)
    ensures Join([a, b], ',') == a + "," + b
  {
    assert [a, b][1..] == [b];
  }

  lemma JoinThree(a: string, b: string, c: string)
    ensures Join([a, b, c], ',') == a + "," + b + "," + c
  {
    assert [a, b, c][1..] == [b, c];
    JoinTwo(b, c);
    assert a + "," + (b + "," + c) == a + "," + b + "," + c;
  }

  /** The server builds the text without proof that the client builds. */
  lemma SameWithoutProof(lib: Library, gs2Header: string, cbData: string, nonce: string)
    ensures WithoutProof(lib, gs2Header + cbData, nonce) == FinalWithoutProof(lib, gs2Header, cbData, nonce)
  {
    var c, r := Attribute('c', lib.std(gs2Header + cbData)), Attribute('r', nonce);
    JoinTwo(c, r);
    assert c == "c=" + lib.std(gs2Header + cbData) && r == "r=" + nonce;
    assert c + "," + ("r=" + nonce) == c + ",r=" + nonce;
  }

  /** From one transcript both sides compute the same proof and the same verifier. */
  lemma SameProofs(lib: Library, v: Variant, salted: string, t: Transcript)
    requires Lawful(lib)
    ensures AuthMessage(t.clientFirstBare, t.serverFirst, t.finalWithoutProof) == t.Signed()
    ensures ClientFinal(lib, v, salted, t.Signed(), t.finalWithoutProof) == ProvedFinal(lib, v, salted, t)
    ensures "v=" + lib.std(ServerSignature(lib, v, salted, t.Signed())) == Verifier(lib, v, salted, t)
  {
    JoinThree(t.clientFirstBare, t.serverFirst, t.finalWithoutProof);
    var signature := Hmac(lib, v, StoredKey(lib, v, salted), t.Signed());
    var proof := lib.std(XorBytes(lib, ClientKey(lib, v, salted), signature));
    JoinTwo(t.finalWithoutProof, Attribute('p', proof));
    assert t.finalWithoutProof + ",p=" + proof == t.finalWithoutProof + "," + Attribute('p', proof);
  }

  // ---------------------------------------------------------------------------------------------
  // The server's authenticator
  // ---------------------------------------------------------------------------------------------

  method SplitKeyAndValue(str: string, sep: char) returns (key: string, value: string)
    ensures sep == '=' ==> (key, value) == KeyValue(str)
    ensures sep !in str ==> key == "" && value == ""
    ensures sep in str ==> sep !in key && str == key + [sep] + value
  {
    FirstIndexIs(str, sep);
    var j := -1;
    for i := 0 to |str|
      invariant j == -1 && forall k :: 0 <= k < i ==> str[k] != sep
    {
      if str[i] == sep {
        j := i;
        break;
      }
    }
    if j == -1 {
      return "", "";
    }
    key, value := str[..j], str[j + 1..];
    assert str == str[..j] + [str[j]] + str[j + 1..];
    FirstIndexUnique(str, sep, j);
  }

  class Authenticator {
    const lib: Library
    const variant: Variant
    const usesCb: bool
    const users: map<string, User>
    const peppers: Keys
    const channelBinding: string -> string   // mechanism to the transport's binding bytes

    var challenged: bool
    var params: Params
    var user: Option<User>
    var srvNonce: string
    var firstMessage: string
    var authenticated: bool

    constructor (lib: Library, variant: Variant, usesCb: bool, users: map<string, User>, peppers: Keys,
                 channelBinding: string -> string)
      ensures this.lib == lib && this.variant == variant && this.usesCb == usesCb && this.users == users
      ensures this.peppers == peppers && this.channelBinding == channelBinding
      ensures !challenged && !authenticated && user == None
    {
      this.lib, this.variant, this.usesCb, this.users := lib, variant, usesCb, users;
      this.peppers, this.channelBinding := peppers, channelBinding;
      challenged, params, user := false, Params("", "", []), None;
      srvNonce, firstMessage, authenticated := "", "", false;
    }

    method Reset()
      modifies this
      ensures !challenged && !authenticated && user == None && srvNonce == "" && firstMessage == ""
      ensures params == Params("", "", [])
    {
      authenticated, challenged, user := false, false, None;
      params, srvNonce, firstMessage := Params("", "", []), "", "";
    }

    method ParseParameters(str: string) returns (r: Parsed)
      modifies this`params
      ensures r == Parse(str, usesCb)
      ensures params == if r.Good? then r.p else old(params)
    {
      var sp := Split(str, ',');
      if |sp| < 2 {
        return Bad(IncorrectEncoding);
      }
      var flag, cbMechanism := sp[0], "";
      if flag == "p" {
        if !usesCb { return Bad(NotAuthorized); }
      } else if flag != "n" && flag != "y" {
        if !HasPrefixP(flag) { return Bad(MalformedRequest); }
        if !usesCb { return Bad(NotAuthorized); }
        cbMechanism := flag[2..];
      }
      var authz := sp[1];
      if |authz| > 0 {
        var key, _ := SplitKeyAndValue(authz, '=');
        if |key| == 0 || key != "a" { return Bad(MalformedRequest); }
      }
      var ps := [];
      for i := 2 to |sp|
        invariant ps == Map(KeyValue, sp[2..i])
      {
        var key, val := SplitKeyAndValue(sp[i], '=');
        assert sp[2..i + 1] == sp[2..i] + [sp[i]];
        ps := ps + [(key, val)];
      }
      assert sp[2..|sp|] == sp[2..];
      params := Params(flag + "," + authz + ",", cbMechanism, ps);
      r := Good(params);
    }

    method Lookup(key: string) returns (v: string)
      ensures v == GetParameter(params.params, key)
    {
      var ps := params.params;
      for i := 0 to |ps|
        invariant GetParameter(ps, key) == GetParameter(ps[i..], key)
      {
        if ps[i].0 == key {
          return ps[i].1;
        }
        assert ps[i..][1..] == ps[i + 1..];
      }
      assert ps[|ps|..] == [];
      v := "";
    }

    /** The first step: on success the challenge carries the nonce, the peppered salt and the count. */
    method HandleStart(text: string, uuid: string) returns (reply: Reply)
      modifies this
      ensures reply.Answer? <==>
        && text != "" && lib.stdDecode(text).Some?
        && Parse(lib.stdDecode(text).value, usesCb).Good?
        && (var ps := Parse(lib.stdDecode(text).value, usesCb).p.params;
            && GetParameter(ps, "n") in users && GetParameter(ps, "n") != "" && GetParameter(ps, "r") != ""
            && lib.rawDecode(users[GetParameter(ps, "n")].salt).Some?)
      ensures reply.Answer? ==>
        && params == Parse(lib.stdDecode(text).value, usesCb).p
        && var u := users[GetParameter(params.params, "n")];
        && user == Some(u) && challenged
        && srvNonce == GetParameter(params.params, "r") + "-" + uuid
        && firstMessage == ServerFirst(lib, srvNonce, lib.rawDecode(u.salt).value + GetKey(peppers, u.pepperID),
            u.iterations)
        && reply == Answer(lib.std(firstMessage))
      ensures reply.Refusal? ==> challenged == old(challenged)
      ensures authenticated == old(authenticated)
    {
      if |text| == 0 || lib.stdDecode(text).None? {
        return Refusal(IncorrectEncoding);
      }
      var parsed := ParseParameters(lib.stdDecode(text).value);
      if parsed.Bad? {
        return Refusal(parsed.reason);
      }
      var username := Lookup("n");
      var cNonce := Lookup("r");
      if |username| == 0 || |cNonce| == 0 {
        return Refusal(MalformedRequest);
      }
      if username !in users {
        return Refusal(NotAuthorized);
      }
      var u := users[username];
      user := Some(u);
      if lib.rawDecode(u.salt).None? {
        return Refusal(TemporaryAuthFailure);
      }
      var pepperedSalt := lib.rawDecode(u.salt).value + GetKey(peppers, u.pepperID);
      srvNonce := cNonce + "-" + uuid;
      firstMessage := ServerFirst(lib, srvNonce, pepperedSalt, u.iterations);
      challenged := true;
      reply := Answer(lib.std(firstMessage));
    }

    ghost function BindingData(): string
      reads this
    {
      if usesCb && (params.cbMechanism == "tls-unique" || params.cbMechanism == "tls-exporter")
      then channelBinding(params.cbMechanism) else ""
    }

    ghost function CBindInput(): string
      reads this
    {
      params.gs2Header + BindingData()
    }

    method GetCBindInputString() returns (c: string)
      ensures c == lib.std(CBindInput())
    {
      var buf := params.gs2Header;
      assert buf + "" == buf;
      if usesCb {
        if params.cbMechanism == "tls-unique" {
          buf := buf + channelBinding("tls-unique");
        } else if params.cbMechanism == "tls-exporter" {
          buf := buf + channelBinding("tls-exporter");
        }
      }
      c := lib.std(buf);
    }

    method Xor(a: string, b: string) returns (r: string)
      requires |a| == |b|
      ensures r == XorBytes(lib, a, b)
    {
      r := "";
      for i := 0 to |a|
        invariant r == XorBytes(lib, a[..i], b[..i])
      {
        r := r + [lib.xor(a[i], b[i])];
      }
      assert a[..|a|] == a && b[..|b|] == b;
    }

    /** The final message of a client that holds the salted password. */
    method ExpectedFinal(salted: string, authMessage: string, bare: string) returns (text: string)
      requires Lawful(lib)
      ensures text == ClientFinal(lib, variant, salted, authMessage, bare)
    {
      var clientKey := lib.hmac(variant, "Client Key", salted);
      var storedKey := lib.hash(variant, clientKey);
      var clientSignature := lib.hmac(variant, authMessage, storedKey);
      var clientProof := Xor(clientKey, clientSignature);
      text := bare + ",p=" + lib.std(clientProof);
    }

    /** The second step: accepted exactly when the payload is, byte for byte, the last message that a
        client holding the stored hash would send; the answer is the server's signature. */
    method HandleChallenged(text: string) returns (reply: Reply)
      requires user.Some? && Lawful(lib)
      modifies this`authenticated
      ensures var bare := WithoutProof(lib, CBindInput(), srvNonce);
              var msg := AuthMessage(Render(params.params), firstMessage, bare);
              var salted := lib.rawDecode(StoredHash(user.value, variant));
              && (reply.Answer? <==> (&& text != "" && lib.stdDecode(text).Some? && salted.Some?
                                      && lib.stdDecode(text).value == ClientFinal(lib, variant, salted.value, msg,
                                          bare)))
              && (reply.Answer? ==> reply == Answer(lib.std("v=" + lib.std(ServerSignature(lib, variant,
                  salted.value, msg)))))
      ensures var t := Transcript(Render(params.params), firstMessage,
                                  FinalWithoutProof(lib, params.gs2Header, BindingData(), srvNonce));
              var salted := lib.rawDecode(StoredHash(user.value, variant));
              && (reply.Answer? <==> (&& text != "" && lib.stdDecode(text).Some? && salted.Some?
                                      && lib.stdDecode(text).value == ProvedFinal(lib, variant, salted.value, t)))
              && (reply.Answer? ==> reply == Answer(lib.std(Verifier(lib, variant, salted.value, t))))
      ensures authenticated == (old(authenticated) || reply.Answer?)
    {
      SameWithoutProof(lib, params.gs2Header, BindingData(), srvNonce);
      if |text| == 0 || lib.stdDecode(text).None? {
        return Refusal(IncorrectEncoding);
      }
      var c := GetCBindInputString();
      var initialMessage := Render(params.params);
      var bare := "c=" + c + ",r=" + srvNonce;
      var scramPassword := lib.rawDecode(StoredHash(user.value, variant));
      if scramPassword.None? {
        return Refusal(TemporaryAuthFailure);
      }
      var authMessage := initialMessage + "," + firstMessage + "," + bare;
      SameProofs(lib, variant, scramPassword.value, Transcript(initialMessage, firstMessage, bare));
      var expected := ExpectedFinal(scramPassword.value, authMessage, bare);
      var serverKey := lib.hmac(variant, "Server Key", scramPassword.value);
      var serverSignature := lib.hmac(variant, authMessage, serverKey);
      if expected != lib.stdDecode(text).value {
        return Refusal(NotAuthorized);
      }
      authenticated := true;
      reply := Answer(lib.std("v=" + lib.std(serverSignature)));
    }
  }

  // ---------------------------------------------------------------------------------------------
  // A client that knows the password
  // ---------------------------------------------------------------------------------------------

  /** `flag` and `authz` make the GS2 header; `extensions` are further attributes of the first message. */
  datatype Client = Client(variant: Variant, flag: string, authz: string, cbData: string,
                           username: string, nonce: string, extensions: seq<string>, password: string)

  function Escaped(x: char): string { if x == ',' then "=2C" else if x == '=' then "=3D" else [x] }

  /** A username as section 5.1 of RFC 5802 has it written: commas and equals signs escaped. */
  function Saslname(username: string): string {
    if username == "" then "" else Escaped(username[0]) + Saslname(username[1..])
  }

  predicate Plain(username: string) { ',' !in username && '=' !in username }

  /** Escaping leaves no comma, and leaves a name as it is if and only if there is nothing to escape. */
  lemma {:induction false} SaslnameExact(username: string)
    ensures Saslname(username) == username <==> Plain(username)
    ensures ',' !in Saslname(username) && |Saslname(username)| >= |username|
    ensures !Plain(username) ==> |Saslname(username)| > |username|
  {
    if username != "" {
      SaslnameExact(username[1..]);
      assert username == [username[0]] + username[1..];
    }
  }

  function ClientBare(c: Client): string {
    Join(["n=" + Saslname(c.username), "r=" + c.nonce] + c.extensions, ',')
  }

  function ClientHeader(c: Client): string { c.flag + "," + c.authz + "," }

  function ClientFirst(c: Client): string { ClientHeader(c) + ClientBare(c) }

  /** The parts are as section 7 of RFC 5802 asks, and channel binding data is sent exactly for the mechanisms
      both sides support. */
  predicate ClientOk(c: Client, usesCb: bool, channelBinding: string -> string) {
    && c.username != "" && ',' !in c.nonce && c.nonce != ""
    && (forall e :: e in c.extensions ==> ',' !in e && '=' in e)
    && ',' !in c.authz && (c.authz == "" || Tagged('a', c.authz))
    && (if c.flag == "n" || c.flag == "y" then c.cbData == ""
        else usesCb && c.flag in {"p=tls-unique", "p=tls-exporter"} && c.cbData == channelBinding(c.flag[2..]))
  }

  ghost function Exchanged(lib: Library, c: Client, serverFirst: string, nonce: string): Transcript {
    Transcript(ClientBare(c), serverFirst, FinalWithoutProof(lib, ClientHeader(c), c.cbData, nonce))
  }

  /** What the client sends after reading the challenge, and the signature it will accept. */
  ghost function ClientAnswer(lib: Library, c: Client, challenge: string): Option<(string, string)>
    requires Lawful(lib)
  {
    match lib.stdDecode(challenge)
    case None => None
    case Some(sf) =>
      var parts := Split(sf, ',');
      if |parts| != 3 || !Tagged('r', parts[0]) || !Tagged('s', parts[1]) || !Tagged('i', parts[2]) ||
         !(c.nonce <= parts[0][2..]) then None
      else
        match lib.stdDecode(parts[1][2..])
        case None => None
        case Some(salt) =>
          var i := ParseDecimal(parts[2][2..]);
          if i < 0 then None
          else
            var salted := lib.kdf(c.variant, c.password, salt, i);
            var t := Exchanged(lib, c, sf, parts[0][2..]);
            Some((lib.std(ProvedFinal(lib, c.variant, salted, t)), lib.std(Verifier(lib, c.variant, salted, t))))
  }

  lemma ClientPieces(c: Client)
    requires ',' !in c.nonce && forall e :: e in c.extensions ==> ',' !in e
    ensures Split(ClientBare(c), ',') == ["n=" + Saslname(c.username), "r=" + c.nonce] + c.extensions
  {
    SaslnameExact(c.username);
    var attrs := ["n=" + Saslname(c.username), "r=" + c.nonce] + c.extensions;
    forall i | 0 <= i < |attrs| ensures ',' !in attrs[i] {
      if i >= 2 { assert attrs[i] == c.extensions[i - 2]; }
    }
    SplitJoin(attrs, ',');
  }

  lemma FirstTwo(ps: seq<(string, string)>, u: string, r: string)
    requires |ps| >= 2 && ps[0] == ("n", u) && ps[1] == ("r", r)
    ensures GetParameter(ps, "n") == u && GetParameter(ps, "r") == r
  {
    assert "n" != "r" by { assert "n"[0] != "r"[0]; }
    assert ps[1..][0] == ps[1];
  }

  lemma ClientAttributes(c: Client)
    requires ',' !in c.nonce && forall e :: e in c.extensions ==> ',' !in e
    ensures GetParameter(Attributes(ClientBare(c)), "n") == Saslname(c.username)
    ensures GetParameter(Attributes(ClientBare(c)), "r") == c.nonce
  {
    ClientPieces(c);
    TwoAttributes(Saslname(c.username), c.nonce, c.extensions);
    var pieces := Split(ClientBare(c), ',');
    FirstTwo(Map(KeyValue, pieces), Saslname(c.username), c.nonce);
  }

  lemma TwoAttributes(u: string, r: string, ext: seq<string>)
    ensures var ps := Map(KeyValue, ["n=" + u, "r=" + r] + ext);
            |ps| >= 2 && ps[0] == ("n", u) && ps[1] == ("r", r)
  {
    assert "n=" + u == "n" + "=" + u && "r=" + r == "r" + "=" + r;
    KeyValueOf("n", u);
    KeyValueOf("r", r);
  }

  lemma KeyValueOf(key: string, value: string)
    requires '=' !in key
    ensures KeyValue(key + "=" + value) == (key, value)
  {
    var s := key + "=" + value;
    assert s[|key|] == '=';
    assert s[..|key|] == key && s[|key| + 1..] == value;
    FirstIndexUnique(s, '=', |key|);
  }

  lemma HeaderPieces(flag: string, authz: string, bare: string)
    requires ',' !in flag && ',' !in authz
    ensures var sp := Split(flag + "," + authz + "," + bare, ',');
            |sp| >= 2 && sp[0] == flag && sp[1] == authz && sp[2..] == Split(bare, ',')
  {
    HeaderSplit(flag, authz, bare);
    TwoInFront(flag, authz, Split(bare, ','));
  }

  lemma HeaderSplit(flag: string, authz: string, bare: string)
    requires ',' !in flag && ',' !in authz
    ensures Split(flag + "," + authz + "," + bare, ',') == [flag] + ([authz] + Split(bare, ','))
  {
    var rest := authz + [','] + bare;
    assert flag + "," + authz + "," + bare == flag + [','] + rest;
    SplitHead(flag, rest, ',');
    SplitHead(authz, bare, ',');
  }

  lemma TwoInFront(a: string, b: string, tail: seq<string>)
    ensures var s := [a] + ([b] + tail); |s| >= 2 && s[0] == a && s[1] == b && s[2..] == tail
  {
    assert ([a] + ([b] + tail))[2..] == tail;
  }

  lemma FlagFacts(flag: string)
    requires flag == "n" || flag == "y" || flag == "p=tls-unique" || flag == "p=tls-exporter"
    ensures ',' !in flag && flag != "p" && (HasPrefixP(flag) <==> flag != "n" && flag != "y")
  {
    assert "p=tls-unique"[..2] == "p=" && "p=tls-exporter"[..2] == "p=";
  }

  lemma AuthzFacts(authz: string)
    requires authz == "" || Tagged('a', authz)
    ensures authz != "" ==> KeyValue(authz).0 == "a"
  {
    if authz != "" {
      assert authz == "a" + "=" + authz[2..];
      KeyValueOf("a", authz[2..]);
    }
  }

  predicate WantsBinding(flag: string) { flag == "p" || (|flag| >= 2 && flag[0] == 'p' && flag[1] == '=') }

  /** What is refused of a first message, and why: a client that wants channel binding needs a mechanism with it,
      any other flag than n or y is malformed, and so is an authorization that is not the attribute a. */
  lemma ParseVerdicts(flag: string, authz: string, bare: string, usesCb: bool)
    requires ',' !in flag && ',' !in authz
    ensures var r := Parse(flag + "," + authz + "," + bare, usesCb);
            && (r == Bad(NotAuthorized) <==> WantsBinding(flag) && !usesCb)
            && (r == Bad(MalformedRequest) <==>
                  || !(WantsBinding(flag) || flag == "n" || flag == "y")
                  || (authz != "" && !Tagged('a', authz) && (usesCb || !WantsBinding(flag))))
            && r != Bad(IncorrectEncoding) && r != Bad(TemporaryAuthFailure)
            && (r.Good? ==> r.p.gs2Header == flag + "," + authz + "," && r.p.params == Attributes(bare))
    ensures Parse(flag, usesCb) == Bad(IncorrectEncoding)
  {
    HeaderPieces(flag, authz, bare);
    SplitNone(flag, ',');
    assert "p="[0] == 'p' && "p="[1] == '=';
    FirstIndexIs(authz, '=');
    assert authz != "" ==> (Tagged('a', authz) <==> KeyValue(authz).0 == "a") by {
      if Tagged('a', authz) { AuthzFacts(authz); }
    }
  }

  lemma ClientFirstParses(c: Client, usesCb: bool, channelBinding: string -> string)
    requires ClientOk(c, usesCb, channelBinding)
    ensures Parse(ClientFirst(c), usesCb) ==
            Good(Params(ClientHeader(c), if HasPrefixP(c.flag) then c.flag[2..] else "", Attributes(ClientBare(c))))
    ensures HasPrefixP(c.flag) <==> c.flag != "n" && c.flag != "y"
  {
    FlagFacts(c.flag);
    AuthzFacts(c.authz);
    HeaderPieces(c.flag, c.authz, ClientBare(c));
  }

  lemma ServerFirstParts(lib: Library, nonce: string, salt: string, iterations: nat)
    requires Lawful(lib) && ',' !in nonce
    ensures var parts := Split(ServerFirst(lib, nonce, salt, iterations), ',');
            && |parts| == 3 && Tagged('r', parts[0]) && Tagged('s', parts[1]) && Tagged('i', parts[2])
            && parts[0][2..] == nonce && parts[1][2..] == lib.std(salt) && parts[2][2..] == Decimal(iterations)
  {
    var a, b, d := "r=" + nonce, "s=" + lib.std(salt), "i=" + Decimal(iterations);
    ParseInvertsDecimal(iterations);
    assert ',' !in a && ',' !in b && ',' !in d;
    assert ServerFirst(lib, nonce, salt, iterations) == a + [','] + (b + [','] + d);
    SplitHead(a, b + [','] + d, ',');
    SplitHead(b, d, ',');
    SplitNone(d, ',');
    assert Split(ServerFirst(lib, nonce, salt, iterations), ',') == [a] + ([b] + [d]);
  }

  /** What a client makes of the challenge that the server sends it. */
  lemma ClientReads(lib: Library, c: Client, nonce: string, salt: string, iterations: nat)
    requires Lawful(lib) && ',' !in nonce && c.nonce <= nonce
    ensures var sf := ServerFirst(lib, nonce, salt, iterations);
            var salted := lib.kdf(c.variant, c.password, salt, iterations);
            var t := Exchanged(lib, c, sf, nonce);
            ClientAnswer(lib, c, lib.std(sf)) ==
            Some((lib.std(ProvedFinal(lib, c.variant, salted, t)), lib.std(Verifier(lib, c.variant, salted, t))))
  {
    ServerFirstParts(lib, nonce, salt, iterations);
    ParseInvertsDecimal(iterations);
  }

  lemma StoredIsSalted(lib: Library, username: string, password: string, salt: string, peppers: Keys, v: Variant)
    requires Lawful(lib)
    ensures var u := MakeUser(lib, username, password, salt, peppers);
            && lib.rawDecode(StoredHash(u, v)) ==
               Some(lib.kdf(v, password, salt + GetKey(peppers, peppers.useID), ITERATION_COUNT))
            && lib.rawDecode(u.salt) == Some(salt)
  {
  }

  /** The server hashes the same channel binding input as the client. */
  lemma SameBinding(c: Client, usesCb: bool, channelBinding: string -> string, a: Authenticator)
    requires ClientOk(c, usesCb, channelBinding) && a.usesCb == usesCb && a.channelBinding == channelBinding
    requires a.params.gs2Header == ClientHeader(c)
    requires a.params.cbMechanism == if HasPrefixP(c.flag) then c.flag[2..] else ""
    ensures a.BindingData() == c.cbData && a.CBindInput() == ClientHeader(c) + c.cbData
  {
    FlagFacts(c.flag);
    assert "p=tls-unique"[2..] == "tls-unique" && "p=tls-exporter"[2..] == "tls-exporter";
  }

  /** The client's first message is rebuilt by the server. */
  lemma SameFirst(c: Client, usesCb: bool, channelBinding: string -> string)
    requires ClientOk(c, usesCb, channelBinding)
    ensures Render(Attributes(ClientBare(c))) == ClientBare(c)
  {
    ClientPieces(c);
    RenderAttributes(ClientBare(c));
  }

  /** The state of a server that has challenged this client over a peppered salt. */
  ghost predicate Challenged(a: Authenticator, lib: Library, c: Client, usesCb: bool, channelBinding: string -> string,
                             u: User, peppered: string, nonce: string)
    reads a
  {
    && a.lib == lib && a.variant == c.variant && a.usesCb == usesCb && a.channelBinding == channelBinding
    && a.user == Some(u) && a.srvNonce == nonce
    && a.params == Params(ClientHeader(c), if HasPrefixP(c.flag) then c.flag[2..] else "", Attributes(ClientBare(c)))
    && a.firstMessage == ServerFirst(lib, nonce, peppered, u.iterations)
  }

  ghost function PepperedSalt(lib: Library, peppers: Keys, u: User): string
    requires lib.rawDecode(u.salt).Some?
  {
    lib.rawDecode(u.salt).value + GetKey(peppers, u.pepperID)
  }

  /** The server looks the name up as it is written, without undoing the escapes. */
  method FirstExchange(lib: Library, users: map<string, User>, peppers: Keys, c: Client, usesCb: bool,
                       channelBinding: string -> string, uuid: string)
    returns (server: Authenticator, reply: Reply)
    requires Lawful(lib) && ClientOk(c, usesCb, channelBinding)
    ensures reply.Answer? <==> Saslname(c.username) in users && lib.rawDecode(users[Saslname(c.username)].salt).Some?
    ensures reply.Answer? ==>
              var u := users[Saslname(c.username)];
              && Challenged(server, lib, c, usesCb, channelBinding, u, PepperedSalt(lib, peppers, u),
                  c.nonce + "-" + uuid)
              && reply.text == lib.std(server.firstMessage)
    ensures fresh(server)
  {
    server := new Authenticator(lib, c.variant, usesCb, users, peppers, channelBinding);
    ClientFirstParses(c, usesCb, channelBinding);
    ClientAttributes(c);
    SaslnameExact(c.username);
    assert lib.std(ClientFirst(c)) != "";
    reply := server.HandleStart(lib.std(ClientFirst(c)), uuid);
  }

  /** A challenged client is accepted, and given the signature it expects, if the stored hash is the one that
      it derives from its password. */
  method SecondExchange(server: Authenticator, lib: Library, c: Client, usesCb: bool, channelBinding: string -> string,
                        ghost u: User, ghost peppered: string, ghost nonce: string, challenge: string)
    returns (accepted: bool, ghost expected: string, signature: string)
    requires Lawful(lib) && ClientOk(c, usesCb, channelBinding) && ',' !in nonce && c.nonce <= nonce
    requires Challenged(server, lib, c, usesCb, channelBinding, u, peppered, nonce)
    requires challenge == lib.std(server.firstMessage)
    modifies server
    ensures ClientAnswer(lib, c, challenge).Some? && expected == ClientAnswer(lib, c, challenge).value.1
    ensures lib.rawDecode(StoredHash(u, c.variant)) == Some(lib.kdf(c.variant, c.password, peppered, u.iterations)) ==>
              accepted && signature == expected
  {
    ClientReads(lib, c, nonce, peppered, u.iterations);
    expected := ClientAnswer(lib, c, challenge).value.1;
    var final := PlayClient(lib, c, challenge);
    SameBinding(c, usesCb, channelBinding, server);
    SameFirst(c, usesCb, channelBinding);
    ghost var t := Exchanged(lib, c, server.firstMessage, nonce);
    ghost var salted := lib.kdf(c.variant, c.password, peppered, u.iterations);
    accepted, signature := FinalStep(server, final, t, salted);
  }

  // The server's second step on the answer of a client that derived this salted password.
  method FinalStep(server: Authenticator, final: string, ghost t: Transcript, ghost salted: string)
    returns (accepted: bool, signature: string)
    requires Lawful(server.lib) && server.user.Some?
    requires t == Transcript(Render(server.params.params), server.firstMessage,
                             FinalWithoutProof(server.lib, server.params.gs2Header, server.BindingData(),
                                 server.srvNonce))
    requires final == server.lib.std(ProvedFinal(server.lib, server.variant, salted, t))
    modifies server
    ensures server.lib.rawDecode(StoredHash(old(server.user).value, server.variant)) == Some(salted) ==>
              accepted && signature == server.lib.std(Verifier(server.lib, server.variant, salted, t))
  {
    ProvedFinalNotEmpty(server.lib, server.variant, salted, t);
    assert server.lib.stdDecode(final).value != "";
    assert final != "";
    var reply := server.HandleChallenged(final);
    accepted := reply.Answer?;
    signature := if reply.Answer? then reply.text else "";
  }

  /** End to end. A user is created under one pepper configuration; later, under any configuration that
      still has that pepper, a client with the password runs the exchange. Unless somebody else bears the
      escaped name, it is accepted, in every variant, if and only if the name has nothing to escape; and
      then it is given the signature it expects. */
  method Login(lib: Library, salt: string, keys: map<string, string>, useID: string,
               keys': map<string, string>, useID': string, users: map<string, User>,
               c: Client, usesCb: bool, channelBinding: string -> string, uuid: string)
    returns (accepted: bool, challenge: string, ghost expected: string, signature: string)
    requires Lawful(lib) && ClientOk(c, usesCb, channelBinding) && ',' !in uuid
    requires NewKeys(keys, useID).Some? && NewKeys(keys', useID').Some?
    requires StillConfigured(keys, useID, keys', useID')
    requires c.username in users
    requires users[c.username] == MakeUser(lib, c.username, c.password, salt, NewKeys(keys, useID).value)
    ensures Plain(c.username) || Saslname(c.username) !in users ==> (accepted <==> Plain(c.username))
    ensures Plain(c.username) ==>
              && ClientAnswer(lib, c, challenge).Some? && expected == ClientAnswer(lib, c, challenge).value.1
              && signature == expected
  {
    PepperFoundAgain(keys, useID, keys', useID');
    SaslnameExact(c.username);
    ghost var made := NewKeys(keys, useID).value;
    StoredIsSalted(lib, c.username, c.password, salt, made, c.variant);
    var peppers := NewKeys(keys', useID').value;
    var server, reply := FirstExchange(lib, users, peppers, c, usesCb, channelBinding, uuid);
    if reply.Refusal? {
      return false, "", "", "";
    }
    challenge := reply.text;
    ghost var u := users[Saslname(c.username)];
    accepted, expected, signature := SecondExchange(server, lib, c, usesCb, channelBinding, u,
                                                    PepperedSalt(lib, peppers, u), c.nonce + "-" + uuid, challenge);
  }

  /** The client's side of the second step. */
  method PlayClient(lib: Library, c: Client, challenge: string) returns (final: string)
    requires Lawful(lib) && ClientAnswer(lib, c, challenge).Some?
    ensures final == ClientAnswer(lib, c, challenge).value.0
    ensures lib.stdDecode(final).Some? && lib.stdDecode(final).value != ""
  {
    var sf := lib.stdDecode(challenge).value;
    var parts := Split(sf, ',');
    var salt := lib.stdDecode(parts[1][2..]).value;
    var salted := lib.kdf(c.variant, c.password, salt, ParseDecimal(parts[2][2..]));
    var without := FinalWithoutProof(lib, ClientHeader(c), c.cbData, parts[0][2..]);
    var signed := Transcript(ClientBare(c), sf, without).Signed();
    var clientKey := ClientKey(lib, c.variant, salted);
    var signature := Hmac(lib, c.variant, lib.hash(c.variant, clientKey), signed);
    var proof := Attribute('p', lib.std(XorBytes(lib, clientKey, signature)));
    JoinTwo(without, proof);
    final := lib.std(Join([without, proof], ','));
  }
}
