/** The security helpers: masking an email for logs, comparing CSRF
    tokens, stripping password fields from a user object, and the redacted
    record a security event logs. Byte encoding is a parameter; the
    console output is left out. */
module Security {
  import opened Wrappers
  import opened Text
  import opened Records

  /** The index of the first `c` in `s`. */
  function IndexOf(s: string, c: char): (r: nat)
    requires c in s
    ensures r < |s| && s[r] == c && c !in s[..r]
  {
    if s[0] == c then 0
    else
      assert c in s[1..] by { var k :| 0 <= k < |s| && s[k] == c; assert s[1..][k - 1] == c; }
      var i := IndexOf(s[1..], c);
      assert s[..i + 1] == [s[0]] + s[1..][..i];
      i + 1
  }

  /** `s.split(c)` for a one-character separator: the pieces between the
      separators, so one more piece than there are separators. */
  function Split(s: string, c: char): (r: seq<string>)
    ensures |r| >= 1
    ensures c in s <==> |r| >= 2
    ensures forall i :: 0 <= i < |r| ==> c !in r[i]
    decreases |s|
  {
    if c !in s then [s]
    else
      var i := IndexOf(s, c);
      [s[..i]] + Split(s[i + 1..], c)
  }

  /** `parts.join(c)`. */
  function Join(parts: seq<string>, c: char): string
    requires |parts| >= 1
  {
    if |parts| == 1 then parts[0] else parts[0] + [c] + Join(parts[1..], c)
  }

  /** Splitting and joining again gives back the string. */
  lemma {:induction false} JoinSplit(s: string, c: char)
    ensures Join(Split(s, c), c) == s
    decreases |s|
  {
    if c in s {
      var i := IndexOf(s, c);
      JoinSplit(s[i + 1..], c);
      assert Split(s, c)[1..] == Split(s[i + 1..], c);
      assert s == s[..i] + [c] + s[i + 1..];
    }
  }

  /** Joining pieces that hold no separator and splitting again gives
      back the pieces. */
  lemma {:induction false} SplitJoin(parts: seq<string>, c: char)
    requires |parts| >= 1
    requires forall i :: 0 <= i < |parts| ==> c !in parts[i]
    ensures Split(Join(parts, c), c) == parts
    decreases |parts|
  {
    var s := Join(parts, c);
    if |parts| == 1 {
    } else {
      var rest := Join(parts[1..], c);
      assert s == parts[0] + ([c] + rest);
      assert s[|parts[0]|] == c;
      var i := IndexOf(s, c);
      assert i == |parts[0]|;
      assert s[..i] == parts[0];
      assert s[i + 1..] == rest;
      SplitJoin(parts[1..], c);
    }
  }

  const MASK := "***"

  /** `sanitizeEmail(email)`: "***" when there is no "@", otherwise
      "***@" followed by the second "@"-separated piece. */
  function SanitizeEmail(email: string): (r: string)
    ensures r == MASK <==> email == "" || '@' !in email
    ensures r != MASK ==> |r| >= 4 && r[..4] == MASK + "@" && '@' !in r[4..]
  {
    if email == "" || '@' !in email then MASK
    else
      var parts := Split(email, '@');
      assert '@' !in parts[1];
      assert (MASK + "@" + parts[1])[4..] == parts[1];
      MASK + "@" + parts[1]
  }

  /** The domain shown is the text between the first "@" and the next one
      (or the end); the local part never appears. */
  lemma SanitizeEmailDomain(local: string, domain: string, rest: string)
    requires '@' !in local && '@' !in domain
    requires rest == [] || rest[0] == '@'
    ensures SanitizeEmail(local + "@" + domain + rest) == MASK + "@" + domain
  {
    var email := local + "@" + domain + rest;
    var i := IndexOf(email, '@');
    assert email[|local|] == '@';
    assert i == |local|;
    assert email[i + 1..] == domain + rest;
    var tail := domain + rest;
    assert Split(email, '@')[1] == Split(tail, '@')[0];
    if rest == [] {
      assert tail == domain;
    } else {
      var j := IndexOf(tail, '@');
      assert tail[|domain|] == '@';
      assert j == |domain|;
      assert tail[..j] == domain;
    }
  }

  /** `validateCSRFToken(token1, token2)`. `bytes` is `Buffer.from`'s
      encoding; a length mismatch of the buffers makes `timingSafeEqual`
      throw, and the throw is caught as `false`. */
  function ValidateCsrfToken(token1: string, token2: string, bytes: string -> seq<bv8>): (r: bool)
    ensures r ==> token1 != "" && |token1| == |token2| && bytes(token1) == bytes(token2)
    ensures token1 != "" && token1 == token2 ==> r
  {
    if token1 == "" || token2 == "" then false
    else if |token1| != |token2| then false
    else if |bytes(token1)| != |bytes(token2)| then false
    else bytes(token1) == bytes(token2)
  }

  /** With an encoding that tells strings apart, a token is accepted
      exactly when both are non-empty and identical. */
  lemma CsrfAcceptsExactlyEqual(token1: string, token2: string, bytes: string -> seq<bv8>)
    requires forall a: string, b: string :: bytes(a) == bytes(b) ==> a == b
    ensures ValidateCsrfToken(token1, token2, bytes) <==> token1 != "" && token1 == token2
  {
  }

  const SECRET_FIELDS := {"passwordHash", "password"}

  /** `sanitizeUserData(user)`. */
  function SanitizeUserData(user: Entries): Entries {
    Omit(user, SECRET_FIELDS)
  }

  /** Exactly the two password fields disappear; every other field keeps
      its value, and the order of the rest is kept. */
  lemma SanitizeUserDataFields(user: Entries, k: string)
    ensures Lookup(SanitizeUserData(user), k) == if k in SECRET_FIELDS then None else Lookup(user, k)
  {
    LookupOmit(user, SECRET_FIELDS, k);
  }

  const REDACTED := "[REDACTED]"

  /** A key whose lower-cased form contains a sensitive word. */
  predicate Sensitive(key: string) {
    var k := ToLower(key);
    Contains(k, "password") || Contains(k, "token") || Contains(k, "secret") || Contains(k, "hash")
  }

  /** What the reducer stores for one detail. */
  function Redact(key: string, value: Value): Value {
    if key == "email" && value.Str? then Str(SanitizeEmail(value.s))
    else if Sensitive(key) then Str(REDACTED)
    else value
  }

  function RedactEach(details: Entries): (r: Entries)
    ensures Keys(r) == Keys(details)
  {
    seq(|details|, (i: int) requires 0 <= i < |details| => (details[i].0, Redact(details[i].0, details[i].1)))
  }

  /** The record `logSecurityEvent` builds: `event`, `timestamp` and `env`,
      then the reduced details spread over them. */
  function SecurityRecord(event: string, timestamp: string, env: Value, details: Entries): Entries {
    AssignAll(Base(event, timestamp, env), AssignAll([], RedactEach(details)))
  }

  function Base(event: string, timestamp: string, env: Value): Entries {
    [("event", Str(event)), ("timestamp", Str(timestamp)), ("env", env)]
  }

  /** The record's first three keys are always event, timestamp and env,
      and no key occurs twice. */
  lemma SecurityRecordShape(event: string, timestamp: string, env: Value, details: Entries)
    ensures var r := SecurityRecord(event, timestamp, env, details);
      |r| >= 3 && r[0].0 == "event" && r[1].0 == "timestamp" && r[2].0 == "env" && KeysUnique(r)
  {
    var b := Base(event, timestamp, env);
    assert |b| == 3 && b[0].0 == "event" && b[1].0 == "timestamp" && b[2].0 == "env";
    assert KeysUnique(b);
    AssignAllKeepsKeys(b, AssignAll([], RedactEach(details)));
  }

  lemma RedactEachLookup(details: Entries, k: string)
    ensures Lookup(RedactEach(details), k) ==
      match Lookup(details, k) case None => None case Some(v) => Some(Redact(k, v))
  {
    LookupFinds(details, k);
    LookupFinds(RedactEach(details), k);
    FirstMatches(details, RedactEach(details), k);
  }

  /** Lookups in two lists with the same keys land at the same place. */
  lemma {:induction false} FirstMatches(details: Entries, redacted: Entries, k: string)
    requires |redacted| == |details|
    requires forall i :: 0 <= i < |details| ==> redacted[i] == (details[i].0, Redact(details[i].0, details[i].1))
    ensures Lookup(redacted, k) ==
      match Lookup(details, k) case None => None case Some(v) => Some(Redact(k, v))
    decreases |details|
  {
    if details != [] {
      FirstMatches(details[1..], redacted[1..], k);
    }
  }

  /** Each detail key (keys of a JavaScript object are distinct) is logged
      with its redacted value, overriding event, timestamp or env if it
      has that name; the base fields otherwise stay. */
  lemma SecurityRecordLookup(event: string, timestamp: string, env: Value, details: Entries, k: string)
    requires KeysUnique(details)
    ensures Lookup(SecurityRecord(event, timestamp, env, details), k) ==
      match Lookup(details, k)
      case Some(v) => Some(Redact(k, v))
      case None => Lookup(Base(event, timestamp, env), k)
  {
    var es := RedactEach(details);
    assert KeysUnique(es) by {
      forall i, j | 0 <= i < j < |es|
        ensures es[i].0 != es[j].0
      {
        assert Keys(es)[i] == Keys(details)[i] && Keys(es)[j] == Keys(details)[j];
      }
    }
    var reduced := AssignAll([], es);
    LookupAssignAll([], es, k);
    var none: Entries := [];
    assert KeysUnique(none);
    AssignAllKeepsKeys(none, es);
    LookupAssignAll(Base(event, timestamp, env), reduced, k);
    RedactEachLookup(details, k);
  }

  /** No password, token, secret or hash detail reaches the log in clear,
      a string email appears only masked, and every other detail is logged
      as given. */
  lemma SecurityRecordRedacts(event: string, timestamp: string, env: Value, details: Entries, k: string, v: Value)
    requires KeysUnique(details)
    requires Lookup(details, k) == Some(v)
    ensures var logged := Lookup(SecurityRecord(event, timestamp, env, details), k);
      (k == "email" && v.Str? ==> logged == Some(Str(SanitizeEmail(v.s)))) &&
      (Sensitive(k) && !(k == "email" && v.Str?) ==> logged == Some(Str(REDACTED))) &&
      (!Sensitive(k) && !(k == "email" && v.Str?) ==> logged == Some(v))
  {
    SecurityRecordLookup(event, timestamp, env, details, k);
  }
}
