/** The order in which Python sorts strings, and `sorted` on a tuple of strings. */
module Sorting {
  /** Lexicographic by code point. */
  predicate AtMost(a: string, b: string)
  {
    a == "" || (b != "" && (a[0] < b[0] || (a[0] == b[0] && AtMost(a[1..], b[1..]))))
  }

  lemma {:induction false} AtMostTotal(a: string, b: string)
    ensures AtMost(a, b) || AtMost(b, a)
    ensures AtMost(a, b) && AtMost(b, a) ==> a == b
  {
    if a != "" && b != "" {
      AtMostTotal(a[1..], b[1..]);
      if a[0] == b[0] && a[1..] == b[1..] {
        assert a == [a[0]] + a[1..] == [b[0]] + b[1..] == b;
      }
    }
  }

  lemma {:induction false} AtMostTransitive(a: string, b: string, c: string)
    requires AtMost(a, b) && AtMost(b, c)
    ensures AtMost(a, c)
  {
    if a != "" && a[0] == b[0] && b[0] == c[0] {
      AtMostTransitive(a[1..], b[1..], c[1..]);
    }
  }

  ghost predicate Ordered(xs: seq<string>)
  {
    forall i, j :: 0 <= i < j < |xs| ==> AtMost(xs[i], xs[j])
  }

  function Insert(x: string, xs: seq<string>): (r: seq<string>)
    requires Ordered(xs)
    ensures Ordered(r)
    ensures multiset(r) == multiset(xs) + multiset{x}
  {
    if xs == [] then [x]
    else if AtMost(x, xs[0]) then
      assert forall j :: 0 <= j < |xs| ==> AtMost(x, xs[j]) by {
        forall j | 0 <= j < |xs| ensures AtMost(x, xs[j]) {
          if j > 0 { AtMostTransitive(x, xs[0], xs[j]); }
        }
      }
      [x] + xs
    else
      var rest := Insert(x, xs[1..]);
      assert xs == [xs[0]] + xs[1..];
      assert forall j :: 0 <= j < |rest| ==> AtMost(xs[0], rest[j]) by {
        AtMostTotal(x, xs[0]);
        forall j | 0 <= j < |rest| ensures AtMost(xs[0], rest[j]) {
          assert rest[j] in multiset(rest);
          assert rest[j] in multiset(xs[1..]) || rest[j] == x;
        }
      }
      [xs[0]] + rest
  }

  function Sorted(xs: seq<string>): (r: seq<string>)
    ensures Ordered(r)
    ensures multiset(r) == multiset(xs)
  {
    if xs == [] then []
    else
      assert xs == [xs[0]] + xs[1..];
      Insert(xs[0], Sorted(xs[1..]))
  }

  lemma HeadAndTail(xs: seq<string>)
    requires xs != []
    ensures multiset(xs[1..]) == multiset(xs) - multiset{xs[0]}
    ensures xs[0] in multiset(xs)
  {
    assert xs == [xs[0]] + xs[1..];
  }

  /** The head of an ordered sequence is at most each of its elements. */
  lemma HeadIsLeast(xs: seq<string>, x: string)
    requires Ordered(xs) && x in multiset(xs)
    ensures AtMost(xs[0], x)
  {
    var i :| 0 <= i < |xs| && xs[i] == x;
    AtMostTotal(x, x);
  }

  /** Two ordered sequences with the same elements are the same sequence. */
  lemma {:induction false} OrderedUnique(xs: seq<string>, ys: seq<string>)
    requires Ordered(xs) && Ordered(ys) && multiset(xs) == multiset(ys)
    ensures xs == ys
  {
    hide AtMost;
    if xs == [] {
      if ys != [] { HeadAndTail(ys); }
    } else {
      HeadAndTail(xs);
      if ys != [] {
        HeadAndTail(ys);
        HeadIsLeast(xs, ys[0]);
        HeadIsLeast(ys, xs[0]);
        AtMostTotal(xs[0], ys[0]);
        OrderedUnique(xs[1..], ys[1..]);
        assert xs == [xs[0]] + xs[1..] && ys == [ys[0]] + ys[1..];
      }
    }
  }
}

/** Signed launcher manifests: printing, parsing, signing and verifying (bootstrap/core.py). */
module Manifests {
  import opened Wrappers
  import Sorting

  /** A decoded JSON value, or the absence of one; floating point numbers do not occur in manifests. */
  datatype Json =
    | Absent
    | JNull
    | JBool(b: bool)
    | JInt(i: int)
    | JStr(s: string)
    | JArr(items: seq<Json>)
    | JObj(fields: seq<(string, Json)>)

  datatype Failure = BootstrapError | OtherError

  /** The conversions `str`, `int` and iteration, which the code applies to untrusted values.
      `None` is a raised TypeError or ValueError. */
  datatype Conversions = Conversions(
    show: Json -> string,
    toInt: Json -> Option<int>,
    iterate: Json -> Option<seq<string>>)

  ghost predicate Lawful(conv: Conversions)
  {
    && (forall s :: conv.show(JStr(s)) == s)
    && (forall j: Json :: !j.JStr? ==> conv.show(j) != "")
    && (forall i :: conv.toInt(JInt(i)) == Some(i))
    && (forall xs: seq<string> :: conv.iterate(JArr(Strings(xs))) == Some(xs))
  }

  /** Canonical bytes, SHA-256 and an Ed25519 scheme, left uninterpreted. */
  datatype Crypto = Crypto(
    canonical: Document -> string,
    sha256: string -> string,
    sign: (string, string) -> string,
    check: (string, string, string) -> bool,
    publicKey: string -> string)

  ghost predicate Signs(crypto: Crypto, key: string, text: string)
  {
    |crypto.sign(key, text)| > 0 && crypto.check(crypto.publicKey(key), text, crypto.sign(key, text))
  }

  /** What a correct signature scheme promises: a signature is non-empty and checks under the matching public key
      (section 5.1 of RFC 8032). */
  ghost predicate Correct(crypto: Crypto)
  {
    forall key, text :: Signs(crypto, key, text)
  }

  datatype Manifest = Manifest(
    productVersion: string,
    launcherVersion: string,
    minimumVersion: string,
    packageFilename: string,
    packageSize: int,
    packageSha: string,
    metadataSha: string,
    packageManifestSha: string,
    smokeReceiptSha: string,
    sourceCommit: string,
    sourceTree: string,
    releaseId: string,
    buildId: string,
    releaseChannel: string,
    mandatory: bool,
    revoked: seq<string>,
    schemaVersion: int,
    publishedAt: string)

  /** A manifest dictionary as it arrives: one value per key the code reads. */
  datatype Document = Document(
    productVersion: Json,
    launcherVersion: Json,
    minimumVersion: Json,
    packageFilename: Json,
    packageSize: Json,
    packageSha: Json,
    metadataSha: Json,
    packageManifestSha: Json,
    smokeReceiptSha: Json,
    sourceCommit: Json,
    sourceTree: Json,
    releaseId: Json,
    buildId: Json,
    releaseChannel: Json,
    mandatory: Json,
    revoked: Json,
    schemaVersion: Json,
    publishedAt: Json)

  datatype Signature = Signature(algorithm: Json, keyId: Json, value: Json)

  /** A signed envelope; `None` where the value is not a dictionary. */
  datatype Envelope = Envelope(
    schemaVersion: Json,
    manifest: Option<Document>,
    digest: Json,
    signature: Option<Signature>)

  const SCHEMA_VERSION := 1

  function Strings(xs: seq<string>): seq<Json>
  {
    seq(|xs|, i requires 0 <= i < |xs| => JStr(xs[i]))
  }

  /** `LauncherUpdateManifest.payload`. */
  function Payload(m: Manifest): Document
  {
    Document(
      JStr(m.productVersion), JStr(m.launcherVersion), JStr(m.minimumVersion), JStr(m.packageFilename),
      JInt(m.packageSize), JStr(m.packageSha), JStr(m.metadataSha), JStr(m.packageManifestSha),
      JStr(m.smokeReceiptSha), JStr(m.sourceCommit), JStr(m.sourceTree), JStr(m.releaseId), JStr(m.buildId),
      JStr(m.releaseChannel), JBool(m.mandatory), JArr(Strings(Sorting.Sorted(m.revoked))),
      JInt(m.schemaVersion), JStr(m.publishedAt))
  }

  function Digest(crypto: Crypto, m: Manifest): string
  {
    crypto.sha256(crypto.canonical(Payload(m)))
  }

  predicate Truthy(j: Json)
  {
    match j
    case Absent => false
    case JNull => false
    case JBool(b) => b
    case JInt(i) => i != 0
    case JStr(s) => s != ""
    case JArr(items) => items != []
    case JObj(fields) => fields != []
  }

  /** `not value.get(key) and value.get(key) != 0`; False equals 0 in Python. */
  predicate Missing(j: Json)
  {
    !Truthy(j) && j != JInt(0) && j != JBool(false)
  }

  predicate AnyMissing(d: Document)
  {
    || Missing(d.productVersion) || Missing(d.launcherVersion) || Missing(d.minimumVersion)
    || Missing(d.packageFilename) || Missing(d.packageSize) || Missing(d.packageSha) || Missing(d.metadataSha)
    || Missing(d.packageManifestSha) || Missing(d.smokeReceiptSha) || Missing(d.sourceCommit)
    || Missing(d.sourceTree) || Missing(d.releaseId) || Missing(d.buildId)
  }

  /** `value.get(key, default)`. */
  function Default(j: Json, default: Json): Json
  {
    if j.Absent? then default else j
  }

  /** `str(value.get(key) or default)`. */
  function TextOr(conv: Conversions, j: Json, default: string): string
  {
    if Truthy(j) then conv.show(j) else default
  }

  function NonEmpty(xs: seq<string>): (r: seq<string>)
    ensures "" !in r
    ensures "" !in xs ==> r == xs
  {
    if xs == [] then []
    else if xs[0] == "" then NonEmpty(xs[1..])
    else
      assert xs == [xs[0]] + xs[1..];
      [xs[0]] + NonEmpty(xs[1..])
  }

  /** `LauncherUpdateManifest.from_payload`. */
  function FromPayload(conv: Conversions, d: Document): Result<Manifest, Failure>
  {
    if AnyMissing(d) then Err(BootstrapError)
    else
      var schema := conv.toInt(Default(d.schemaVersion, JInt(0)));
      if schema == None then Err(OtherError)
      else if schema.value != SCHEMA_VERSION then Err(BootstrapError)
      else
        var size := conv.toInt(d.packageSize);
        var revoked := conv.iterate(Default(d.revoked, JArr([])));
        if size == None || revoked == None then Err(OtherError)
        else Ok(Manifest(
          conv.show(d.productVersion), conv.show(d.launcherVersion), conv.show(d.minimumVersion),
          conv.show(d.packageFilename), size.value, conv.show(d.packageSha), conv.show(d.metadataSha),
          conv.show(d.packageManifestSha), conv.show(d.smokeReceiptSha), conv.show(d.sourceCommit),
          conv.show(d.sourceTree), conv.show(d.releaseId), conv.show(d.buildId),
          TextOr(conv, d.releaseChannel, "test"), Truthy(d.mandatory), NonEmpty(revoked.value),
          schema.value, TextOr(conv, d.publishedAt, "")))
  }

  /** `sign_launcher_manifest`. */
  function Sign(crypto: Crypto, m: Manifest, keyId: string, privateKey: string): Envelope
  {
    Envelope(
      JInt(1),
      Some(Payload(m)),
      JStr(Digest(crypto, m)),
      Some(Signature(JStr("Ed25519"), JStr(keyId), JStr(crypto.sign(privateKey, crypto.canonical(Payload(m)))))))
  }

  /** Which keys a client trusts. */
  datatype Trust = Trust(keys: map<string, string>, revokedKeys: set<string>)

  /** `verify_launcher_manifest`. */
  function Verify(conv: Conversions, crypto: Crypto, trust: Trust, e: Envelope): Result<Manifest, Failure>
  {
    var schema := conv.toInt(Default(e.schemaVersion, JInt(0)));
    if schema == None then Err(OtherError)
    else if schema.value != 1 || e.manifest.None? || e.signature.None? then Err(BootstrapError)
    else
      var parsed := FromPayload(conv, e.manifest.value);
      if parsed.Err? then Err(parsed.error)
      else if Vouched(conv, crypto, trust, parsed.value, e.digest, e.signature.value) then Ok(parsed.value)
      else Err(BootstrapError)
  }

  /** The digest and signature checks on a parsed manifest. */
  predicate Vouched(conv: Conversions, crypto: Crypto, trust: Trust, m: Manifest, digest: Json, signature: Signature)
  {
    var keyId := TextOr(conv, signature.keyId, "");
    && digest == JStr(Digest(crypto, m))
    && keyId != "" && keyId !in trust.revokedKeys && keyId in trust.keys
    && signature.algorithm == JStr("Ed25519")
    && crypto.check(trust.keys[keyId], crypto.canonical(Payload(m)), TextOr(conv, signature.value, ""))
  }

  /** Required fields and release channel non-empty, supported schema, no empty revoked entry. */
  predicate WellFormed(m: Manifest)
  {
    && m.productVersion != "" && m.launcherVersion != "" && m.minimumVersion != ""
    && m.packageFilename != "" && m.packageSha != "" && m.metadataSha != ""
    && m.packageManifestSha != "" && m.smokeReceiptSha != "" && m.sourceCommit != ""
    && m.sourceTree != "" && m.releaseId != "" && m.buildId != "" && m.releaseChannel != ""
    && m.schemaVersion == SCHEMA_VERSION
    && "" !in m.revoked
  }

  /** The manifest with its revoked versions in sorted order. */
  function Canonical(m: Manifest): Manifest
  {
    m.(revoked := Sorting.Sorted(m.revoked))
  }

  lemma SortedKeepsMembers(xs: seq<string>)
    ensures forall x :: x in Sorting.Sorted(xs) <==> x in xs
  {
    var ys := Sorting.Sorted(xs);
    forall x ensures x in ys <==> x in xs {
      assert x in ys <==> x in multiset(ys);
      assert x in xs <==> x in multiset(xs);
    }
  }

  lemma SortedTwice(xs: seq<string>)
    ensures Sorting.Sorted(Sorting.Sorted(xs)) == Sorting.Sorted(xs)
  {
    Sorting.OrderedUnique(Sorting.Sorted(Sorting.Sorted(xs)), Sorting.Sorted(xs));
  }

  /** The digest does not depend on the order of the revoked list. */
  lemma DigestIgnoresRevokedOrder(crypto: Crypto, m: Manifest, other: seq<string>)
    requires multiset(m.revoked) == multiset(other)
    ensures Payload(m.(revoked := other)) == Payload(m)
    ensures Digest(crypto, m.(revoked := other)) == Digest(crypto, m)
  {
    Sorting.OrderedUnique(Sorting.Sorted(m.revoked), Sorting.Sorted(other));
  }

  /** What parsing a printed manifest gives. */
  lemma ParsedPayload(conv: Conversions, m: Manifest)
    requires Lawful(conv)
    ensures FromPayload(conv, Payload(m)) ==
            if AnyMissing(Payload(m)) || m.schemaVersion != SCHEMA_VERSION then Err(BootstrapError)
            else Ok(m.(releaseChannel := if m.releaseChannel == "" then "test" else m.releaseChannel,
                       revoked := NonEmpty(Sorting.Sorted(m.revoked))))
  {
    var p := Payload(m);
    assert conv.iterate(p.revoked) == Some(Sorting.Sorted(m.revoked));
    assert conv.toInt(p.schemaVersion) == Some(m.schemaVersion) && conv.toInt(p.packageSize) == Some(m.packageSize);
    assert conv.show(p.productVersion) == m.productVersion && conv.show(p.launcherVersion) == m.launcherVersion;
    assert conv.show(p.minimumVersion) == m.minimumVersion && conv.show(p.packageFilename) == m.packageFilename;
    assert conv.show(p.packageSha) == m.packageSha && conv.show(p.metadataSha) == m.metadataSha;
    assert conv.show(p.packageManifestSha) == m.packageManifestSha;
    assert conv.show(p.smokeReceiptSha) == m.smokeReceiptSha && conv.show(p.sourceCommit) == m.sourceCommit;
    assert conv.show(p.sourceTree) == m.sourceTree && conv.show(p.releaseId) == m.releaseId;
    assert conv.show(p.buildId) == m.buildId && conv.show(p.releaseChannel) == m.releaseChannel;
    assert conv.show(p.publishedAt) == m.publishedAt;
  }

  /** Printing then parsing gives the manifest back, sorted, exactly when it is well formed. */
  lemma PrintThenParse(conv: Conversions, m: Manifest)
    requires Lawful(conv)
    ensures WellFormed(m) <==> FromPayload(conv, Payload(m)) == Ok(Canonical(m))
  {
    hide FromPayload, Lawful;
    ParsedPayload(conv, m);
    SortedKeepsMembers(m.revoked);
  }

  lemma ShownPresent(conv: Conversions, j: Json)
    requires Lawful(conv) && !Missing(j)
    ensures conv.show(j) != ""
  {
    assert j.JStr? ==> conv.show(j) == j.s;
  }

  /** Whatever parses is well formed. */
  lemma ParsedIsWellFormed(conv: Conversions, d: Document)
    requires Lawful(conv) && FromPayload(conv, d).Ok?
    ensures WellFormed(FromPayload(conv, d).value)
  {
    ShownPresent(conv, d.productVersion);
    ShownPresent(conv, d.launcherVersion);
    ShownPresent(conv, d.minimumVersion);
    ShownPresent(conv, d.packageFilename);
    ShownPresent(conv, d.packageSha);
    ShownPresent(conv, d.metadataSha);
    ShownPresent(conv, d.packageManifestSha);
    ShownPresent(conv, d.smokeReceiptSha);
    ShownPresent(conv, d.sourceCommit);
    ShownPresent(conv, d.sourceTree);
    ShownPresent(conv, d.releaseId);
    ShownPresent(conv, d.buildId);
    if Truthy(d.releaseChannel) { ShownPresent(conv, d.releaseChannel); }
  }

  /** Parsing then printing is a normalisation: parsing its output again changes nothing but the order of
      the revoked list, and a second round changes nothing. */
  lemma ParseThenPrintIsStable(conv: Conversions, d: Document)
    requires Lawful(conv) && FromPayload(conv, d).Ok?
    ensures var m := FromPayload(conv, d).value;
      && WellFormed(m)
      && FromPayload(conv, Payload(m)) == Ok(Canonical(m))
      && Payload(Canonical(m)) == Payload(m)
  {
    hide FromPayload, WellFormed, Lawful;
    var m := FromPayload(conv, d).value;
    ParsedIsWellFormed(conv, d);
    PrintThenParse(conv, m);
    SortedTwice(m.revoked);
  }

  /** A signature made with a trusted key vouches for the manifest it was made for. */
  lemma SignedIsVouched(conv: Conversions, crypto: Crypto, trust: Trust, m: Manifest, keyId: string, privateKey: string)
    requires Lawful(conv) && Correct(crypto)
    requires keyId != "" && keyId in trust.keys && keyId !in trust.revokedKeys
    requires trust.keys[keyId] == crypto.publicKey(privateKey)
    ensures var e := Sign(crypto, m, keyId, privateKey);
            Vouched(conv, crypto, trust, m, e.digest, e.signature.value)
  {
    var text := crypto.canonical(Payload(m));
    var e := Sign(crypto, m, keyId, privateKey);
    assert conv.show(e.signature.value.keyId) == keyId;
    assert conv.show(e.signature.value.value) == crypto.sign(privateKey, text);
    assert Signs(crypto, privateKey, text);
  }

  /** Verification hands back what parsing gave, when the digest and the signature vouch for it. */
  lemma VerifyParsed(conv: Conversions, crypto: Crypto, trust: Trust, e: Envelope, parsed: Result<Manifest, Failure>)
    requires conv.toInt(Default(e.schemaVersion, JInt(0))) == Some(1)
    requires e.manifest.Some? && e.signature.Some? && parsed == FromPayload(conv, e.manifest.value)
    ensures Verify(conv, crypto, trust, e).Ok? ==> Verify(conv, crypto, trust, e) == parsed
    ensures parsed.Ok? && Vouched(conv, crypto, trust, parsed.value, e.digest, e.signature.value) ==>
              Verify(conv, crypto, trust, e) == parsed
  {
    hide FromPayload, Vouched;
  }

  /** Verifying a freshly signed manifest returns it with its revoked list sorted, for every
      well-formed manifest and for no other. */
  lemma SignThenVerify(conv: Conversions, crypto: Crypto, trust: Trust, m: Manifest, keyId: string, privateKey: string)
    requires Lawful(conv) && Correct(crypto)
    requires keyId != "" && keyId in trust.keys && keyId !in trust.revokedKeys
    requires trust.keys[keyId] == crypto.publicKey(privateKey)
    ensures WellFormed(m) <==> Verify(conv, crypto, trust, Sign(crypto, m, keyId, privateKey)) == Ok(Canonical(m))
  {
    PrintThenParse(conv, m);
    var e := Sign(crypto, m, keyId, privateKey);
    assert conv.toInt(e.schemaVersion) == Some(1);
    VerifyParsed(conv, crypto, trust, e, FromPayload(conv, Payload(m)));
    if WellFormed(m) {
      SortedTwice(m.revoked);
      SignedIsVouched(conv, crypto, trust, Canonical(m), keyId, privateKey);
      assert Sign(crypto, Canonical(m), keyId, privateKey) == e;
    }
  }

  /** The payload tells the manifest, but for the order of the revoked list. */
  lemma PayloadTells(m: Manifest, other: Manifest)
    requires Payload(m) == Payload(other)
    ensures Canonical(m) == Canonical(other) && multiset(m.revoked) == multiset(other.revoked)
  {
    var xs, ys := Sorting.Sorted(m.revoked), Sorting.Sorted(other.revoked);
    assert Strings(xs) == Strings(ys) by { assert Payload(m).revoked == Payload(other).revoked; }
    forall i | 0 <= i < |xs| ensures xs[i] == ys[i] {
      assert Strings(xs)[i] == JStr(xs[i]) && Strings(ys)[i] == JStr(ys[i]);
    }
    assert xs == ys;
  }

  /** What the trusted keys are relied on for: nothing checks under one that is not revoked but the canonical bytes
      of a manifest that was issued, and manifests with different payloads have different bytes. */
  ghost predicate OnlyIssued(crypto: Crypto, trust: Trust, issued: set<Manifest>)
  {
    && (forall m, n :: crypto.canonical(Payload(m)) == crypto.canonical(Payload(n)) ==> Payload(m) == Payload(n))
    && (forall id, text, value :: Checks(crypto, trust, id, text, value) ==> WasIssued(crypto, issued, text))
  }

  /** The value signs the text under a trusted key that is not revoked. */
  ghost predicate Checks(crypto: Crypto, trust: Trust, id: string, text: string, value: string)
  {
    id in trust.keys && id !in trust.revokedKeys && crypto.check(trust.keys[id], text, value)
  }

  ghost predicate WasIssued(crypto: Crypto, issued: set<Manifest>, text: string)
  {
    exists m :: m in issued && crypto.canonical(Payload(m)) == text
  }

  /** What verifies carries the digest of what it is parsed to, and a signature of it under a trusted key that is
      not revoked. */
  lemma AcceptedIsVouched(conv: Conversions, crypto: Crypto, trust: Trust, e: Envelope)
    requires Verify(conv, crypto, trust, e).Ok?
    ensures var m := Verify(conv, crypto, trust, e).value;
      && e.digest == JStr(Digest(crypto, m))
      && exists id, value :: Checks(crypto, trust, id, crypto.canonical(Payload(m)), value)
  {
    hide FromPayload, Payload;
    var signature := e.signature.value;
    var text := crypto.canonical(Payload(Verify(conv, crypto, trust, e).value));
    assert Checks(crypto, trust, TextOr(conv, signature.keyId, ""), text, TextOr(conv, signature.value, ""));
  }

  /** Nothing verifies but a well-formed manifest that was issued, with every field as it was issued and the
      revoked list in some order. */
  lemma AcceptedWasIssued(conv: Conversions, crypto: Crypto, trust: Trust, issued: set<Manifest>, e: Envelope)
    requires Lawful(conv) && OnlyIssued(crypto, trust, issued) && Verify(conv, crypto, trust, e).Ok?
    ensures var m := Verify(conv, crypto, trust, e).value;
      && WellFormed(m) && e.digest == JStr(Digest(crypto, m))
      && exists i :: i in issued && Canonical(i) == Canonical(m) && multiset(i.revoked) == multiset(m.revoked)
  {
    hide FromPayload, Payload, WellFormed, Canonical, Lawful;
    var m := Verify(conv, crypto, trust, e).value;
    ParsedIsWellFormed(conv, e.manifest.value);
    AcceptedIsVouched(conv, crypto, trust, e);
    assert WasIssued(crypto, issued, crypto.canonical(Payload(m)));
    var i :| i in issued && crypto.canonical(Payload(i)) == crypto.canonical(Payload(m));
    PayloadTells(i, m);
  }

  /** The key is there, and holds something; zero and false count. */
  ghost predicate Given(j: Json)
  {
    !j.Absent? && !j.JNull? && j != JStr("") && j != JArr([]) && j != JObj([])
  }

  /** What counts as true: anything given but zero and false. */
  lemma TruthyWhen(j: Json)
    ensures Truthy(j) <==> Given(j) && j != JInt(0) && j != JBool(false)
    ensures Missing(j) <==> !Given(j)
  {
  }

  ghost predicate AllGiven(d: Document)
  {
    && Given(d.productVersion) && Given(d.launcherVersion) && Given(d.minimumVersion) && Given(d.packageFilename)
    && Given(d.packageSize) && Given(d.packageSha) && Given(d.metadataSha) && Given(d.packageManifestSha)
    && Given(d.smokeReceiptSha) && Given(d.sourceCommit) && Given(d.sourceTree) && Given(d.releaseId)
    && Given(d.buildId)
  }

  /** A document is accepted exactly when all thirteen required keys are given, its schema is version one, and its
      size and its revoked list can be read; what is missing or of another schema is refused as such. */
  lemma AcceptsWhen(conv: Conversions, d: Document)
    ensures var schema := conv.toInt(if d.schemaVersion.Absent? then JInt(0) else d.schemaVersion);
      var revoked := conv.iterate(if d.revoked.Absent? then JArr([]) else d.revoked);
      && (FromPayload(conv, d).Ok? <==>
          AllGiven(d) && schema == Some(1) && conv.toInt(d.packageSize).Some? && revoked.Some?)
      && (FromPayload(conv, d) == Err(BootstrapError) <==>
          !AllGiven(d) || (schema.Some? && schema.value != 1))
  {
    MissingWhen(d);
    hide AnyMissing, AllGiven;
  }

  lemma MissingWhen(d: Document)
    ensures AnyMissing(d) <==> !AllGiven(d)
  {
    hide Given, Missing;
    TruthyWhen(d.productVersion);
    TruthyWhen(d.launcherVersion);
    TruthyWhen(d.minimumVersion);
    TruthyWhen(d.packageFilename);
    TruthyWhen(d.packageSize);
    TruthyWhen(d.packageSha);
    TruthyWhen(d.metadataSha);
    TruthyWhen(d.packageManifestSha);
    TruthyWhen(d.smokeReceiptSha);
    TruthyWhen(d.sourceCommit);
    TruthyWhen(d.sourceTree);
    TruthyWhen(d.releaseId);
    TruthyWhen(d.buildId);
  }

  /** An envelope verifies exactly when its manifest is accepted, its digest is that of the parsed manifest, and it
      carries an Ed25519 signature of the canonical bytes under a trusted key that is not revoked. */
  lemma VerifiesWhen(conv: Conversions, crypto: Crypto, trust: Trust, e: Envelope, m: Manifest)
    ensures Verify(conv, crypto, trust, e) == Ok(m) <==>
      && conv.toInt(if e.schemaVersion.Absent? then JInt(0) else e.schemaVersion) == Some(1)
      && e.manifest.Some? && e.signature.Some? && FromPayload(conv, e.manifest.value) == Ok(m)
      && e.digest == JStr(crypto.sha256(crypto.canonical(Payload(m))))
      && e.signature.value.algorithm == JStr("Ed25519")
      && Truthy(e.signature.value.keyId)
      && var id := conv.show(e.signature.value.keyId);
         var value := if Truthy(e.signature.value.value) then conv.show(e.signature.value.value) else "";
         id != "" && Checks(crypto, trust, id, crypto.canonical(Payload(m)), value)
  {
    hide FromPayload, Payload, Truthy;
  }
}
