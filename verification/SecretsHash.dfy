/** operator/controllers/scaledactionrunner_controller.go: the fingerprint of a runner's secrets. */
module SecretsHash {
  import opened Wrappers
  import opened KubeTypes
  import opened SarGenerator

  type byte = x: int | 0 <= x < 256

  // ---------------------------------------------------------------------------------------------
  // Base64 with padding (section 4 of RFC 4648)

  function Digit(d: nat): char
    requires d < 64
  {
    if d < 26 then 'A' + d as char
    else if d < 52 then 'a' + (d - 26) as char
    else if d < 62 then '0' + (d - 52) as char
    else if d == 62 then '+'
    else '/'
  }

  lemma DigitInjective(d: nat, e: nat)
    requires d < 64 && e < 64
    ensures Digit(d) == Digit(e) <==> d == e
    ensures Digit(d) != '='
  {
  }

  /** The alphabet of table 1 of RFC 4648: three runs of consecutive characters, and two more. */
  lemma DigitIsRfc4648(d: nat)
    requires d < 63
    ensures Digit(0) == 'A' && Digit(25) == 'Z' && Digit(26) == 'a' && Digit(51) == 'z'
    ensures Digit(52) == '0' && Digit(61) == '9' && Digit(62) == '+' && Digit(63) == '/'
    ensures d != 25 && d != 51 && d < 61 ==> Digit(d + 1) as int == Digit(d) as int + 1
  {
  }

  function Group(s: seq<byte>): string
    requires 1 <= |s| <= 3
  {
    var a := s[0];
    if |s| == 1 then [Digit(a / 4), Digit(a % 4 * 16), '=', '=']
    else
      var b := s[1];
      if |s| == 2 then [Digit(a / 4), Digit(a % 4 * 16 + b / 16), Digit(b % 16 * 4), '=']
      else
        var c := s[2];
        [Digit(a / 4), Digit(a % 4 * 16 + b / 16), Digit(b % 16 * 4 + c / 64), Digit(c % 64)]
  }

  function Base64(s: seq<byte>): string {
    if s == [] then ""
    else if |s| <= 3 then Group(s)
    else Group(s[..3]) + Base64(s[3..])
  }

  /** The bytes behind four digits. */
  lemma BytesOfDigits(a: byte, b: byte, c: byte, x: byte, y: byte, z: byte)
    requires a / 4 == x / 4 && a % 4 * 16 + b / 16 == x % 4 * 16 + y / 16
    ensures a == x && b / 16 == y / 16
    ensures b % 16 * 4 + c / 64 == y % 16 * 4 + z / 64 ==> b == y && c / 64 == z / 64
    ensures b % 16 * 4 + c / 64 == y % 16 * 4 + z / 64 && c % 64 == z % 64 ==> c == z
  {
  }

  function ByteAt(s: seq<byte>, i: nat): byte {
    if i < |s| then s[i] else 0
  }

  /** Padding apart, a group shows the digits of its bytes, missing bytes counting as zero. */
  lemma GroupDigits(s: seq<byte>)
    requires 1 <= |s| <= 3
    ensures
      var g := Group(s);
      && |g| == 4 && g[0] == Digit(ByteAt(s, 0) / 4) && g[1] == Digit(ByteAt(s, 0) % 4 * 16 + ByteAt(s, 1) / 16)
      && g[2] == (if |s| > 1 then Digit(ByteAt(s, 1) % 16 * 4 + ByteAt(s, 2) / 64) else '=')
      && g[3] == (if |s| > 2 then Digit(ByteAt(s, 2) % 64) else '=')
  {
  }

  lemma GroupInjective(s: seq<byte>, t: seq<byte>)
    requires 1 <= |s| <= 3 && 1 <= |t| <= 3 && Group(s) == Group(t)
    ensures s == t
  {
    var a, b, c, x, y, z := ByteAt(s, 0), ByteAt(s, 1), ByteAt(s, 2), ByteAt(t, 0), ByteAt(t, 1), ByteAt(t, 2);
    GroupDigits(s);
    GroupDigits(t);
    DigitInjective(a / 4, x / 4);
    DigitInjective(a % 4 * 16 + b / 16, x % 4 * 16 + y / 16);
    DigitInjective(b % 16 * 4 + c / 64, y % 16 * 4 + z / 64);
    DigitInjective(c % 64, z % 64);
    DigitInjective(y % 16 * 4 + z / 64, 0);
    DigitInjective(z % 64, 0);
    assert |s| == |t|;
    BytesOfDigits(a, b, c, x, y, z);
  }

  lemma DigitsOfNumber(ah: int, al: int, bh: int, bl: int, ch: int, cl: int, w: int, x: int, y: int, z: int)
    requires 0 <= al < 4 && 0 <= bh < 16 && 0 <= bl < 16 && 0 <= ch < 4 && 0 <= cl < 64
    requires 0 <= x < 64 && 0 <= y < 64 && 0 <= z < 64
    requires 65536 * (4 * ah + al) + 256 * (16 * bh + bl) + 64 * ch + cl == 262144 * w + 4096 * x + 64 * y + z
    ensures w == ah && x == 16 * al + bh && y == 4 * bl + ch && z == cl
  {
    assert 64 * ah + 16 * al + bh == 64 * w + x;
  }

  /** Three bytes and the four digits of their group are the same 24-bit number; missing bytes count as zero. */
  lemma GroupIsRfc4648(s: seq<byte>, w: nat, x: nat, y: nat, z: nat)
    requires 1 <= |s| <= 3 && w < 64 && x < 64 && y < 64 && z < 64
    requires
      var a: int, b: int, c: int := ByteAt(s, 0), ByteAt(s, 1), ByteAt(s, 2);
      65536 * a + 256 * b + c == 262144 * w + 4096 * x + 64 * y + z
    ensures
      Group(s) ==
      [Digit(w), Digit(x), if |s| > 1 then Digit(y) else '=', if |s| > 2 then Digit(z) else '=']
  {
    var a: int, b: int, c: int := ByteAt(s, 0), ByteAt(s, 1), ByteAt(s, 2);
    DigitsOfNumber(a / 4, a % 4, b / 16, b % 16, c / 64, c % 64, w, x, y, z);
    GroupDigits(s);
  }

  /** Groups of fewer than three bytes only end a text. */
  lemma {:induction false} Base64Injective(s: seq<byte>, t: seq<byte>)
    requires Base64(s) == Base64(t)
    ensures s == t
  {
    if s == [] || t == [] {
      assert |s| > 0 ==> |Base64(s)| >= 4;
      assert |t| > 0 ==> |Base64(t)| >= 4;
    } else {
      var x, y := if |s| <= 3 then s else s[..3], if |t| <= 3 then t else t[..3];
      assert Base64(s)[..4] == Group(x) && Base64(t)[..4] == Group(y);
      GroupInjective(x, y);
      assert s[|x|..] == [] || |x| == 3;
      Base64Tail(s);
      Base64Tail(t);
      Base64Injective(s[|x|..], t[|y|..]);
      assert s == x + s[|x|..] && t == y + t[|y|..];
    }
  }

  lemma Base64Tail(s: seq<byte>)
    requires s != []
    ensures
      var n := if |s| <= 3 then |s| else 3;
      Base64(s)[4..] == Base64(s[n..])
  {
  }

  // ---------------------------------------------------------------------------------------------
  // The digest appended by a hash that nothing was written to: SHA-256 of the empty string

  const DIGEST: seq<byte> := [
    0xe3, 0xb0, 0xc4, 0x42, 0x98, 0xfc, 0x1c, 0x14, 0x9a, 0xfb, 0xf4, 0xc8, 0x99, 0x6f, 0xb9, 0x24,
    0x27, 0xae, 0x41, 0xe4, 0x64, 0x9b, 0x93, 0x4c, 0xa4, 0x95, 0x99, 0x1b, 0x78, 0x52, 0xb8, 0x55]

  function Sum(data: seq<byte>): seq<byte> {
    data + DIGEST
  }

  function Delimited(payloads: seq<seq<byte>>): seq<byte> {
    if payloads == [] then [] else Sum(payloads[0]) + Delimited(payloads[1..])
  }

  function Fingerprint(payloads: seq<seq<byte>>): string {
    Base64(Sum(Delimited(payloads)))
  }

  lemma {:induction false} DelimitedSnoc(payloads: seq<seq<byte>>, p: seq<byte>)
    ensures Delimited(payloads + [p]) == Delimited(payloads) + Sum(p)
  {
    if payloads == [] {
      assert (payloads + [p])[1..] == [];
    } else {
      assert (payloads + [p])[1..] == payloads[1..] + [p];
      DelimitedSnoc(payloads[1..], p);
    }
  }

  /** The marshalled data of a secret: base64 values under keys restricted to ASCII. */
  predicate Ascii(p: seq<byte>) {
    forall i :: 0 <= i < |p| ==> p[i] < 0x80
  }

  ghost predicate AllAscii(payloads: seq<seq<byte>>) {
    forall i :: 0 <= i < |payloads| ==> Ascii(payloads[i])
  }

  /** The digest starts above ASCII, so a payload ends where the first such byte is. */
  lemma FirstPayloadIsPrefix(p: seq<byte>, q: seq<byte>, r: seq<byte>, t: seq<byte>)
    requires Ascii(p) && Ascii(q) && Sum(p) + r == Sum(q) + t
    ensures |p| <= |q|
  {
    assert (Sum(q) + t)[|q|] == DIGEST[0];
  }

  lemma {:induction false} DelimitedInjective(ps: seq<seq<byte>>, qs: seq<seq<byte>>)
    requires AllAscii(ps) && AllAscii(qs) && Delimited(ps) == Delimited(qs)
    ensures ps == qs
  {
    if ps != [] && qs != [] {
      var p, q, r, t := ps[0], qs[0], Delimited(ps[1..]), Delimited(qs[1..]);
      FirstPayloadIsPrefix(p, q, r, t);
      FirstPayloadIsPrefix(q, p, t, r);
      assert p == (Sum(p) + r)[..|p|] == (Sum(q) + t)[..|q|] == q;
      assert r == (Sum(p) + r)[|p| + |DIGEST|..] == (Sum(q) + t)[|q| + |DIGEST|..] == t;
      DelimitedInjective(ps[1..], qs[1..]);
      assert ps == [p] + ps[1..] && qs == [q] + qs[1..];
    }
  }

  /** The fingerprint changes exactly when the payloads do. */
  lemma FingerprintInjective(ps: seq<seq<byte>>, qs: seq<seq<byte>>)
    requires AllAscii(ps) && AllAscii(qs)
    ensures Fingerprint(ps) == Fingerprint(qs) <==> ps == qs
  {
    if Fingerprint(ps) == Fingerprint(qs) {
      Base64Injective(Sum(Delimited(ps)), Sum(Delimited(qs)));
      var x, y := Sum(Delimited(ps)), Sum(Delimited(qs));
      assert Delimited(ps) == x[..|x| - |DIGEST|] && Delimited(qs) == y[..|y| - |DIGEST|];
      DelimitedInjective(ps, qs);
    }
  }

  // ---------------------------------------------------------------------------------------------
  // Reading the secrets

  const RUNNER_REF: string := "runner-ref"

  datatype Secret = Secret(payload: seq<byte>, annotations: Option<StringMap>)

  datatype Read = Payload(payload: seq<byte>) | Missing | Unreadable

  /** How reads and writes of secrets fare, other than for a secret that does not exist. */
  datatype SecretFaults = SecretFaults(unreadable: set<Key>, unwritable: set<Key>)

  function ReadOf(secrets: map<Key, Secret>, key: Key, f: SecretFaults): Read {
    if key in f.unreadable then Unreadable
    else if key !in secrets then Missing
    else Payload(secrets[key].payload)
  }

  function TokenOf(secrets: map<Key, Secret>, c: Config, apiServerNs: string, f: SecretFaults): Read {
    var own := ReadOf(secrets, Key(c.namespace, c.githubTokenSecret), f);
    if own.Payload? then own else ReadOf(secrets, Key(apiServerNs, c.githubTokenSecret), f)
  }

  /** The payloads of the first n runner secrets, less those that cannot be read. */
  function PayloadsOf(secrets: map<Key, Secret>, c: Config, n: nat, f: SecretFaults): seq<seq<byte>>
    requires n <= |c.runnerSecrets|
  {
    if n == 0 then []
    else
      var read := ReadOf(secrets, Key(c.namespace, c.runnerSecrets[n - 1]), f);
      PayloadsOf(secrets, c, n - 1, f) + if read.Payload? then [read.payload] else []
  }

  datatype Hash = Hash(value: string) | TokenMissing | TokenUnreadable

  function HashOf(secrets: map<Key, Secret>, c: Config, apiServerNs: string, f: SecretFaults): Hash {
    match TokenOf(secrets, c, apiServerNs, f)
    case Missing => TokenMissing
    case Unreadable => TokenUnreadable
    case Payload(token) => Hash(Fingerprint([token] + PayloadsOf(secrets, c, RunnerCount(c), f)))
  }

  ghost predicate SamePayloads(a: map<Key, Secret>, b: map<Key, Secret>) {
    && a.Keys == b.Keys
    && forall k :: k in a ==> a[k].payload == b[k].payload
  }

  lemma {:induction false} PayloadsDecideHash(a: map<Key, Secret>, b: map<Key, Secret>, c: Config, n: nat,
      f: SecretFaults)
    requires SamePayloads(a, b) && n <= |c.runnerSecrets|
    ensures forall k :: ReadOf(a, k, f) == ReadOf(b, k, f)
    ensures PayloadsOf(a, c, n, f) == PayloadsOf(b, c, n, f)
  {
    if n > 0 {
      PayloadsDecideHash(a, b, c, n - 1, f);
    }
  }

  // ---------------------------------------------------------------------------------------------
  // Which secrets the fingerprint covers

  const NO_SECRET_FAULTS: SecretFaults := SecretFaults({}, {})

  /** The token's secret is in the runner's namespace or in the API server's, and every runner secret is there. */
  ghost predicate AllThere(secrets: map<Key, Secret>, c: Config, apiServerNs: string) {
    && (Key(c.namespace, c.githubTokenSecret) in secrets || Key(apiServerNs, c.githubTokenSecret) in secrets)
    && forall i :: 0 <= i < |c.runnerSecrets| ==> Key(c.namespace, c.runnerSecrets[i]) in secrets
  }

  /** The secret that holds the token: the runner's own namespace comes first. */
  function TokenKey(secrets: map<Key, Secret>, c: Config, apiServerNs: string): Key {
    if Key(c.namespace, c.githubTokenSecret) in secrets then Key(c.namespace, c.githubTokenSecret)
    else Key(apiServerNs, c.githubTokenSecret)
  }

  /** The token's payload and that of every runner secret with an index below maxRunners are the same. */
  ghost predicate SameSecrets(a: map<Key, Secret>, b: map<Key, Secret>, c: Config, apiServerNs: string)
    requires AllThere(a, c, apiServerNs) && AllThere(b, c, apiServerNs)
  {
    && a[TokenKey(a, c, apiServerNs)].payload == b[TokenKey(b, c, apiServerNs)].payload
    && forall i :: 0 <= i < |c.runnerSecrets| && i < c.maxRunners ==>
         a[Key(c.namespace, c.runnerSecrets[i])].payload == b[Key(c.namespace, c.runnerSecrets[i])].payload
  }

  lemma {:induction false} PayloadsAt(secrets: map<Key, Secret>, c: Config, n: nat)
    requires n <= |c.runnerSecrets|
    requires forall i :: 0 <= i < |c.runnerSecrets| ==> Key(c.namespace, c.runnerSecrets[i]) in secrets
    ensures
      var p := PayloadsOf(secrets, c, n, NO_SECRET_FAULTS);
      |p| == n && forall i :: 0 <= i < n ==> p[i] == secrets[Key(c.namespace, c.runnerSecrets[i])].payload
  {
    if n > 0 {
      PayloadsAt(secrets, c, n - 1);
    }
  }

  lemma SamePayloadsIff(a: map<Key, Secret>, b: map<Key, Secret>, c: Config, apiServerNs: string)
    requires AllThere(a, c, apiServerNs) && AllThere(b, c, apiServerNs)
    ensures
      var t, t' := a[TokenKey(a, c, apiServerNs)].payload, b[TokenKey(b, c, apiServerNs)].payload;
      var n := RunnerCount(c);
      [t] + PayloadsOf(a, c, n, NO_SECRET_FAULTS) == [t'] + PayloadsOf(b, c, n, NO_SECRET_FAULTS) <==>
      SameSecrets(a, b, c, apiServerNs)
  {
    PayloadsAt(a, c, RunnerCount(c));
    PayloadsAt(b, c, RunnerCount(c));
    var p, q := PayloadsOf(a, c, RunnerCount(c), NO_SECRET_FAULTS), PayloadsOf(b, c, RunnerCount(c), NO_SECRET_FAULTS);
    var t, t' := a[TokenKey(a, c, apiServerNs)].payload, b[TokenKey(b, c, apiServerNs)].payload;
    if [t] + p == [t'] + q {
      var x: seq<seq<byte>>, y: seq<seq<byte>> := [t] + p, [t'] + q;
      assert x[0] == y[0] && x[1..] == p && y[1..] == q;
      forall i | 0 <= i < |c.runnerSecrets| && i < c.maxRunners
        ensures a[Key(c.namespace, c.runnerSecrets[i])].payload == b[Key(c.namespace, c.runnerSecrets[i])].payload
      {
        assert p[i] == q[i];
      }
    }
    if SameSecrets(a, b, c, apiServerNs) {
      assert p == q;
    }
  }

  ghost predicate AsciiSecrets(secrets: map<Key, Secret>) {
    forall k :: k in secrets ==> Ascii(secrets[k].payload)
  }

  lemma HashOfAll(secrets: map<Key, Secret>, c: Config, apiServerNs: string)
    requires AllThere(secrets, c, apiServerNs) && AsciiSecrets(secrets)
    ensures
      var token := secrets[TokenKey(secrets, c, apiServerNs)].payload;
      var payloads := [token] + PayloadsOf(secrets, c, RunnerCount(c), NO_SECRET_FAULTS);
      HashOf(secrets, c, apiServerNs, NO_SECRET_FAULTS) == Hash(Fingerprint(payloads)) && AllAscii(payloads)
  {
    PayloadsAt(secrets, c, RunnerCount(c));
  }

  /** Two stores give the same fingerprint exactly if the token and each runner secret below maxRunners are the same. */
  lemma SameFingerprintIff(a: map<Key, Secret>, b: map<Key, Secret>, c: Config, apiServerNs: string)
    requires AllThere(a, c, apiServerNs) && AllThere(b, c, apiServerNs) && AsciiSecrets(a) && AsciiSecrets(b)
    ensures HashOf(a, c, apiServerNs, NO_SECRET_FAULTS).Hash? && HashOf(b, c, apiServerNs, NO_SECRET_FAULTS).Hash?
    ensures
      HashOf(a, c, apiServerNs, NO_SECRET_FAULTS) == HashOf(b, c, apiServerNs, NO_SECRET_FAULTS) <==>
      SameSecrets(a, b, c, apiServerNs)
  {
    var n := RunnerCount(c);
    HashOfAll(a, c, apiServerNs);
    HashOfAll(b, c, apiServerNs);
    FingerprintInjective([a[TokenKey(a, c, apiServerNs)].payload] + PayloadsOf(a, c, n, NO_SECRET_FAULTS),
                         [b[TokenKey(b, c, apiServerNs)].payload] + PayloadsOf(b, c, n, NO_SECRET_FAULTS));
    SamePayloadsIff(a, b, c, apiServerNs);
  }

  /** A secret that is missing or cannot be read is left out; without the token there is no fingerprint, and which
      error it is depends on the second place that was tried. */
  lemma TokenDecides(secrets: map<Key, Secret>, c: Config, apiServerNs: string, f: SecretFaults)
    ensures
      var own, other := Key(c.namespace, c.githubTokenSecret), Key(apiServerNs, c.githubTokenSecret);
      var hash := HashOf(secrets, c, apiServerNs, f);
      && (hash.Hash? <==> (own in secrets && own !in f.unreadable) || (other in secrets && other !in f.unreadable))
      && (!hash.Hash? ==> (hash == TokenUnreadable <==> other in f.unreadable))
  {
  }

  /** Reading a secret leaves a reference to its runner on it, if that can be stored. */
  function Annotated(secrets: map<Key, Secret>, key: Key, runner: string, f: SecretFaults): map<Key, Secret> {
    if !ReadOf(secrets, key, f).Payload? || key in f.unwritable then secrets
    else
      var annotations := secrets[key].annotations.GetOr(map[])[RUNNER_REF := key.namespace + "/" + runner];
      secrets[key := secrets[key].(annotations := Some(annotations))]
  }

  function TokenAnnotated(secrets: map<Key, Secret>, c: Config, apiServerNs: string, f: SecretFaults)
    : map<Key, Secret>
  {
    var own := Key(c.namespace, c.githubTokenSecret);
    var key := if ReadOf(secrets, own, f).Payload? then own else Key(apiServerNs, c.githubTokenSecret);
    Annotated(secrets, key, c.name, f)
  }

  function RunnersAnnotated(secrets: map<Key, Secret>, c: Config, n: nat, f: SecretFaults): map<Key, Secret>
    requires n <= |c.runnerSecrets|
  {
    if n == 0 then secrets
    else Annotated(RunnersAnnotated(secrets, c, n - 1, f), Key(c.namespace, c.runnerSecrets[n - 1]), c.name, f)
  }

  /** The secrets once the fingerprint has been taken. */
  function SecretsAfter(secrets: map<Key, Secret>, c: Config, apiServerNs: string, f: SecretFaults): map<Key, Secret> {
    if !TokenOf(secrets, c, apiServerNs, f).Payload? then secrets
    else RunnersAnnotated(TokenAnnotated(secrets, c, apiServerNs, f), c, RunnerCount(c), f)
  }

  lemma {:induction false} RunnersReferTo(secrets: map<Key, Secret>, c: Config, n: nat, f: SecretFaults, i: nat)
    requires i < n <= |c.runnerSecrets|
    requires
      var key := Key(c.namespace, c.runnerSecrets[i]);
      key in secrets && key !in f.unreadable && key !in f.unwritable
    ensures
      var key, after := Key(c.namespace, c.runnerSecrets[i]), RunnersAnnotated(secrets, c, n, f);
      && key in after && after[key].annotations.Some? && "runner-ref" in after[key].annotations.value
      && after[key].annotations.value["runner-ref"] == c.namespace + "/" + c.name
  {
    AnnotatingKeepsPayloads(secrets, c, n - 1, f);
    if i < n - 1 {
      RunnersReferTo(secrets, c, n - 1, f, i);
    }
  }

  /** Taking the fingerprint leaves the runner's name on each runner secret that it read and could write. */
  lemma SecretsReferToRunner(secrets: map<Key, Secret>, c: Config, apiServerNs: string, f: SecretFaults, i: nat)
    requires i < |c.runnerSecrets| && i < c.maxRunners && HashOf(secrets, c, apiServerNs, f).Hash?
    requires
      var key := Key(c.namespace, c.runnerSecrets[i]);
      key in secrets && key !in f.unreadable && key !in f.unwritable
    ensures
      var key, after := Key(c.namespace, c.runnerSecrets[i]), SecretsAfter(secrets, c, apiServerNs, f);
      && key in after && after[key].annotations.Some? && "runner-ref" in after[key].annotations.value
      && after[key].annotations.value["runner-ref"] == c.namespace + "/" + c.name
  {
    RunnersReferTo(TokenAnnotated(secrets, c, apiServerNs, f), c, RunnerCount(c), f, i);
  }

  lemma {:induction false} AnnotatingKeepsPayloads(secrets: map<Key, Secret>, c: Config, n: nat, f: SecretFaults)
    requires n <= |c.runnerSecrets|
    ensures SamePayloads(RunnersAnnotated(secrets, c, n, f), secrets)
  {
    if n > 0 {
      AnnotatingKeepsPayloads(secrets, c, n - 1, f);
    }
  }

  /** Taking the fingerprint changes no payload. */
  lemma SecretsAfterKeepsPayloads(secrets: map<Key, Secret>, c: Config, apiServerNs: string, f: SecretFaults)
    ensures SamePayloads(SecretsAfter(secrets, c, apiServerNs, f), secrets)
  {
    AnnotatingKeepsPayloads(TokenAnnotated(secrets, c, apiServerNs, f), c, RunnerCount(c), f);
  }

  class Secrets {
    var stored: map<Key, Secret>

    constructor (stored: map<Key, Secret>)
      ensures this.stored == stored
    {
      this.stored := stored;
    }

    /** One secret: it is annotated with the runner it belongs to, whether or not that can be stored. */
    method GetHash(key: Key, runner: string, f: SecretFaults) returns (read: Read)
      modifies this
      ensures read == ReadOf(old(stored), key, f)
      ensures stored == Annotated(old(stored), key, runner, f)
    {
      if key in f.unreadable {
        return Unreadable;
      }
      if key !in stored {
        return Missing;
      }
      var secret := stored[key];
      var reference := key.namespace + "/" + runner;
      var annotations := secret.annotations.GetOr(map[]);
      if RUNNER_REF !in annotations || annotations[RUNNER_REF] != reference {
        secret := secret.(annotations := Some(annotations[RUNNER_REF := reference]));
        if key !in f.unwritable {
          stored := stored[key := secret];
        }
      } else {
        assert annotations[RUNNER_REF := reference] == annotations;
        assert stored[key := secret] == stored;
      }
      return Payload(secret.payload);
    }

    method GetToken(c: Config, apiServerNs: string, f: SecretFaults) returns (token: Read)
      modifies this
      ensures token == TokenOf(old(stored), c, apiServerNs, f)
      ensures stored == if token.Payload? then TokenAnnotated(old(stored), c, apiServerNs, f) else old(stored)
    {
      token := GetHash(Key(c.namespace, c.githubTokenSecret), c.name, f);
      if !token.Payload? {
        token := GetHash(Key(apiServerNs, c.githubTokenSecret), c.name, f);
      }
    }

    /** The loop over the runner secrets: one that is missing from the list or cannot be read is skipped. */
    method AppendRunnerSecrets(c: Config, f: SecretFaults, token: seq<byte>, ghost before: map<Key, Secret>)
        returns (secretData: seq<byte>)
      requires SamePayloads(stored, before)
      modifies this
      ensures secretData == Delimited([token] + PayloadsOf(before, c, RunnerCount(c), f))
      ensures stored == RunnersAnnotated(old(stored), c, RunnerCount(c), f)
    {
      secretData := Sum(token);
      ghost var payloads, start, n := [token], stored, 0;
      assert Delimited(payloads[1..]) == [];
      var i := 0;
      while i < c.maxRunners
        invariant 0 <= i && (i == 0 || i <= c.maxRunners)
        invariant n == if i < |c.runnerSecrets| then i else |c.runnerSecrets|
        invariant secretData == Delimited(payloads) && payloads == [token] + PayloadsOf(before, c, n, f)
        invariant stored == RunnersAnnotated(start, c, n, f)
        decreases c.maxRunners - i
      {
        if i < |c.runnerSecrets| {
          AnnotatingKeepsPayloads(start, c, n, f);
          PayloadsDecideHash(stored, before, c, 0, f);
          var read := GetHash(Key(c.namespace, c.runnerSecrets[i]), c.name, f);
          if read.Payload? {
            DelimitedSnoc(payloads, read.payload);
            payloads := payloads + [read.payload];
            secretData := secretData + Sum(read.payload);
          }
          n := n + 1;
        }
        i := i + 1;
      }
    }

    method GetSecretsHash(c: Config, apiServerNs: string, f: SecretFaults) returns (hash: Hash)
      modifies this
      ensures hash == HashOf(old(stored), c, apiServerNs, f)
      ensures stored == SecretsAfter(old(stored), c, apiServerNs, f)
    {
      ghost var before := stored;
      var token := GetToken(c, apiServerNs, f);
      if !token.Payload? {
        return if token.Missing? then TokenMissing else TokenUnreadable;
      }
      var secretData := AppendRunnerSecrets(c, f, token.payload, before);
      return Hash(Base64(Sum(secretData)));
    }
  }
}
