/** What a journaled wallet operation is about, its normal form, and the key that excludes rivals. */
module BusinessContext {
  import opened Base

  datatype GenerationAction = AcceptCredential | RejectCredential | RemoveCredential | RevokeCredential

  /** A stored or requested context; the strings are untrusted until normalized. */
  datatype Context =
    | SchemaRegister(publisher: Option<string>, schemaDigest: Option<string>, memoByteLength: Option<int>)
    | CredentialIssue(
        issuer: string,
        subject: string,
        schemaUid: string,
        credentialUri: Option<string>,
        payloadDigest: Option<string>,
        expiration: Option<string>)
    | GenerationBound(
        action: GenerationAction,
        issuer: string,
        subject: string,
        schemaUid: string,
        generationId: string,
        payloadDigest: Option<string>)
    | Unreadable

  /** Library checks: classic addresses, payload URIs, parseable dates. */
  datatype Rules = Rules(isAddress: string -> bool, isPayloadUri: string -> bool, isDate: string -> bool)

  predicate OptionalDigest(digest: Option<string>) {
    digest.Some? ==> IsAnyCaseHash(digest.value)
  }

  function LowerOption(s: Option<string>): Option<string> {
    if s.Some? then Some(Lower(s.value)) else None
  }

  /** The normal form of a context, or None where validation throws. */
  function Normalize(c: Context, rules: Rules): Option<Context> {
    match c
    case SchemaRegister(publisher, digest, length) =>
      if (publisher.Some? && !rules.isAddress(publisher.value)) || !OptionalDigest(digest)
         || (length.Some? && length.value <= 0) then None
      else Some(SchemaRegister(publisher, LowerOption(digest), length))
    case CredentialIssue(issuer, subject, uid, uri, digest, expiration) =>
      if !rules.isAddress(issuer) || !rules.isAddress(subject) || !IsHash(Lower(uid)) || !OptionalDigest(digest)
         || (uri.Some? && !rules.isPayloadUri(uri.value))
         || (expiration.Some? && (expiration.value == "" || !rules.isDate(expiration.value))) then None
      else Some(CredentialIssue(issuer, subject, Lower(uid), uri, LowerOption(digest), expiration))
    case GenerationBound(action, issuer, subject, uid, generation, digest) =>
      if !rules.isAddress(issuer) || !rules.isAddress(subject) || !IsHash(Lower(uid)) || !OptionalDigest(digest)
         || !IsHash(Lower(generation)) then None
      else Some(GenerationBound(action, issuer, subject, Lower(uid), Lower(generation), LowerOption(digest)))
    case Unreadable => None
  }

  /** Normalizing is idempotent, so a stored context reads back as the one it was stored for. */
  lemma NormalizeIsIdempotent(c: Context, rules: Rules)
    requires Normalize(c, rules).Some?
    ensures Normalize(Normalize(c, rules).value, rules) == Normalize(c, rules)
  {
    match c {
      case SchemaRegister(_, digest, _) => LowerDigest(digest);
      case CredentialIssue(_, _, uid, _, digest, _) =>
        LowerOfLower(uid);
        LowerDigest(digest);
      case GenerationBound(_, _, _, uid, generation, digest) =>
        LowerOfLower(uid);
        LowerOfLower(generation);
        LowerDigest(digest);
      case Unreadable =>
    }
  }

  lemma LowerDigest(digest: Option<string>)
    requires OptionalDigest(digest)
    ensures LowerOption(LowerOption(digest)) == LowerOption(digest) && OptionalDigest(LowerOption(digest))
  {
    if digest.Some? {
      LowerOfHash(digest.value);
      LowerOfLower(digest.value);
      LowerKeepsHash(Lower(digest.value));
    }
  }

  /** Contexts complete enough to be confirmed against the index later. */
  predicate IsConfirmable(c: Option<Context>) {
    match c
    case Some(SchemaRegister(publisher, digest, length)) => publisher.Some? && digest.Some? && length.Some?
    case Some(CredentialIssue(_, _, _, uri, digest, _)) => uri.Some? && digest.Some?
    case Some(GenerationBound(_, _, _, _, _, _)) => true
    case _ => false
  }

  // ---- The business key -------------------------------------------------------------------------

  /** What identifies the business of a context, as separate parts. */
  function KeyParts(profileId: string, c: Option<Context>): Option<seq<string>> {
    match c
    case Some(SchemaRegister(publisher, digest, _)) =>
      if publisher.None? || publisher.value == "" || digest.None? || digest.value == "" then None
      else Some([profileId, "schema-register", publisher.value, digest.value])
    case Some(CredentialIssue(issuer, subject, uid, _, _, _)) => Some([profileId, "credential", issuer, subject, uid])
    case Some(GenerationBound(_, issuer, subject, uid, generation, _)) =>
      Some([profileId, "credential", issuer, subject, uid, generation])
    case _ => None
  }

  function Joined(parts: seq<string>): string {
    if parts == [] then ""
    else if |parts| == 1 then parts[0]
    else parts[0] + "|" + Joined(parts[1..])
  }

  function BusinessKey(profileId: string, c: Option<Context>): Option<string> {
    var parts := KeyParts(profileId, c);
    if parts.None? then None else Some(Joined(parts.value))
  }

  predicate HasNoBar(s: string) {
    forall i :: 0 <= i < |s| ==> s[i] != '|'
  }

  /** The position of the first bar, or the length when there is none. */
  function FirstBar(s: string): (i: nat)
    ensures i <= |s|
  {
    if s == "" || s[0] == '|' then 0 else 1 + FirstBar(s[1..])
  }

  function Split(s: string): seq<string>
    decreases |s|
  {
    var i := FirstBar(s);
    if i == |s| then [s] else [s[..i]] + Split(s[i + 1..])
  }

  lemma {:induction false} FirstBarAfter(a: string, rest: string)
    requires HasNoBar(a) && (rest == "" || rest[0] == '|')
    ensures FirstBar(a + rest) == |a|
    decreases |a|
  {
    if a == "" {
      assert a + rest == rest;
    } else {
      FirstBarAfter(a[1..], rest);
      assert (a + rest)[1..] == a[1..] + rest;
    }
  }

  /** Splitting a key at its bars gives its parts back. */
  lemma {:induction false} SplitOfJoined(parts: seq<string>)
    requires parts != [] && forall i :: 0 <= i < |parts| ==> HasNoBar(parts[i])
    ensures Split(Joined(parts)) == parts
    decreases |parts|
  {
    var first := parts[0];
    if |parts| == 1 {
      FirstBarAfter(first, "");
      assert first + "" == first;
    } else {
      var rest := "|" + Joined(parts[1..]);
      FirstBarAfter(first, rest);
      assert Joined(parts) == first + rest;
      SplitOfJoined(parts[1..]);
      assert (first + rest)[..|first|] == first && (first + rest)[|first| + 1..] == Joined(parts[1..]);
      assert parts == [first] + parts[1..];
    }
  }

  /** Addresses and profile identifiers contain no bar, as their own formats demand. */
  ghost predicate NoBarsIn(rules: Rules) {
    forall a :: rules.isAddress(a) ==> HasNoBar(a)
  }

  lemma PartsHaveNoBar(profileId: string, c: Context, rules: Rules)
    requires NoBarsIn(rules) && HasNoBar(profileId)
    requires Normalize(c, rules) == Some(c) && KeyParts(profileId, Some(c)).Some?
    ensures var parts := KeyParts(profileId, Some(c)).value;
            parts != [] && forall i :: 0 <= i < |parts| ==> HasNoBar(parts[i])
  {
    assert HasNoBar("schema-register") && HasNoBar("credential");
    match c {
      case SchemaRegister(publisher, digest, _) =>
        LowerOfHash(digest.value);
        HashHasNoBar(digest.value);
      case CredentialIssue(_, _, uid, _, _, _) => HashHasNoBar(uid);
      case GenerationBound(_, _, _, uid, generation, _) =>
        HashHasNoBar(uid);
        HashHasNoBar(generation);
      case Unreadable =>
    }
  }

  lemma HashHasNoBar(s: string)
    requires IsHash(s)
    ensures HasNoBar(s)
  {
    forall i | 0 <= i < |s| ensures s[i] != '|' { assert IsLowerHexChar(s[i]); }
  }

  lemma {:induction false} KeysAreParts(p: string, a: Context, q: string, b: Context, rules: Rules)
    requires NoBarsIn(rules) && HasNoBar(p) && HasNoBar(q)
    requires Normalize(a, rules) == Some(a) && Normalize(b, rules) == Some(b)
    requires BusinessKey(p, Some(a)).Some? && BusinessKey(q, Some(b)).Some?
    ensures BusinessKey(p, Some(a)) == BusinessKey(q, Some(b)) <==> KeyParts(p, Some(a)) == KeyParts(q, Some(b))
  {
    hide KeyParts, Joined, HasNoBar, Normalize;
    PartsHaveNoBar(p, a, rules);
    PartsHaveNoBar(q, b, rules);
    SplitOfJoined(KeyParts(p, Some(a)).value);
    SplitOfJoined(KeyParts(q, Some(b)).value);
  }

  /**
   Two normalized contexts share a key exactly when they are about the same business of one profile: one schema by one
   publisher, the issue of one Credential, whatever its payload, or one generation of it, whatever the action.
   */
  lemma KeyIdentifiesBusiness(p: string, a: Context, q: string, b: Context, rules: Rules)
    requires NoBarsIn(rules) && HasNoBar(p) && HasNoBar(q)
    requires Normalize(a, rules) == Some(a) && Normalize(b, rules) == Some(b)
    requires BusinessKey(p, Some(a)).Some? && BusinessKey(q, Some(b)).Some?
    ensures BusinessKey(p, Some(a)) == BusinessKey(q, Some(b)) <==>
              && p == q
              && (a.SchemaRegister? ==>
                    b.SchemaRegister? && a.publisher == b.publisher && a.schemaDigest == b.schemaDigest)
              && (a.CredentialIssue? ==>
                    b.CredentialIssue? && a.issuer == b.issuer && a.subject == b.subject && a.schemaUid == b.schemaUid)
              && (a.GenerationBound? ==>
                    && b.GenerationBound? && a.issuer == b.issuer && a.subject == b.subject
                    && a.schemaUid == b.schemaUid && a.generationId == b.generationId)
  {
    hide BusinessKey, Normalize, HasNoBar;
    KeyExistsExactly(p, a);
    KeyExistsExactly(q, b);
    KeysAreParts(p, a, q, b, rules);
    var x, y := KeyParts(p, Some(a)).value, KeyParts(q, Some(b)).value;
    assert x == y ==> forall i :: 0 <= i < |x| ==> x[i] == y[i];
    assert "schema-register"[0] != "credential"[0];
  }

  /** Every readable context has a key, but for a registration that names no publisher or no digest. */
  lemma KeyExistsExactly(p: string, c: Context)
    ensures BusinessKey(p, None).None?
    ensures BusinessKey(p, Some(c)).Some? <==>
              || (c.SchemaRegister? && c.publisher.Some? && c.publisher.value != ""
                  && c.schemaDigest.Some? && c.schemaDigest.value != "")
              || c.CredentialIssue? || c.GenerationBound?
  {
  }

  /** What is normalized: addresses that are valid, identifiers of 64 hexadecimal digits, and their lowercase form. */
  lemma NormalFormExactly(c: Context, rules: Rules)
    ensures Normalize(c, rules).Some? <==>
              && (c.SchemaRegister? ==>
                    && (c.publisher.Some? ==> rules.isAddress(c.publisher.value))
                    && (c.schemaDigest.Some? ==> IsHexOf64(c.schemaDigest.value))
                    && (c.memoByteLength.Some? ==> c.memoByteLength.value > 0))
              && (c.CredentialIssue? || c.GenerationBound? ==>
                    && rules.isAddress(c.issuer) && rules.isAddress(c.subject) && IsHexOf64(c.schemaUid)
                    && (c.payloadDigest.Some? ==> IsHexOf64(c.payloadDigest.value)))
              && (c.CredentialIssue? ==>
                    && (c.credentialUri.Some? ==> rules.isPayloadUri(c.credentialUri.value))
                    && (c.expiration.Some? ==> c.expiration.value != "" && rules.isDate(c.expiration.value)))
              && (c.GenerationBound? ==> IsHexOf64(c.generationId))
              && !c.Unreadable?
    ensures Normalize(c, rules).Some? ==>
              Normalize(c, rules).value ==
              match c
              case SchemaRegister(publisher, digest, length) => SchemaRegister(publisher, LowerOption(digest), length)
              case CredentialIssue(issuer, subject, uid, uri, digest, expiration) =>
                CredentialIssue(issuer, subject, Lower(uid), uri, LowerOption(digest), expiration)
              case GenerationBound(action, issuer, subject, uid, generation, digest) =>
                GenerationBound(action, issuer, subject, Lower(uid), Lower(generation), LowerOption(digest))
              case Unreadable => c
  {
    hide IsHexOf64, IsHash, IsAnyCaseHash, Lower;
    forall s ensures IsHexOf64(s) <==> IsAnyCaseHash(s)
             ensures IsHexOf64(s) <==> IsHash(Lower(s))
    {
      HashesAreHex(s);
    }
  }
}
