// internal/redaction/redaction.go. Regular expressions and Unicode lower-casing
// stay abstract: a pattern is a match and a replacement, and a library says how
// text is lower-cased, what looks like an email and which expressions compile.
module Redaction {
  import opened Telemetry

  datatype Pattern = Pattern(matches: string -> bool, replace: string -> string)

  datatype Library = Library(lower: string -> string, email: Pattern, compile: string -> Option<Pattern>)

  const DEFAULT_POLICY_VERSION := "v1"
  const REDACTED := "[REDACTED]"
  const MARKERS := ["authorization", "cookie", "api-key", "apikey", "token", "secret", "password"]

  function Dashed(text: string): string {
    if text == "" then "" else [if text[0] == '_' then '-' else text[0]] + Dashed(text[1..])
  }

  predicate Contains(text: string, part: string) {
    exists i :: 0 <= i <= |text| && part <= text[i..]
  }

  predicate SensitiveKey(lib: Library, key: string) {
    exists marker :: marker in MARKERS && Contains(lib.lower(Dashed(key)), marker)
  }

  // Each pattern sees the value its predecessors left behind.
  function Replaced(value: string, patterns: seq<Pattern>): string {
    if patterns == [] then value
    else
      var before := Replaced(value, patterns[..|patterns| - 1]);
      var pattern := patterns[|patterns| - 1];
      if pattern.matches(before) then pattern.replace(before) else before
  }

  predicate Hit(value: string, patterns: seq<Pattern>) {
    exists i :: 0 <= i < |patterns| && patterns[i].matches(Replaced(value, patterns[..i]))
  }

  predicate Touched(lib: Library, patterns: seq<Pattern>, key: string, value: string) {
    SensitiveKey(lib, key) || Hit(value, [lib.email] + patterns)
  }

  function Sanitized(lib: Library, patterns: seq<Pattern>, key: string, value: string): string {
    if SensitiveKey(lib, key) then REDACTED else Replaced(value, [lib.email] + patterns)
  }

  function Path(key: string): string {
    "attributes." + key
  }

  // The sanitized attributes, and the receipt that names what was redacted.
  ghost predicate SanitizedAs(lib: Library, patterns: seq<Pattern>, version: string, attributes: map<string, string>,
                              cleaned: map<string, string>, receipt: Receipt) {
    && cleaned.Keys == attributes.Keys
    && (forall k :: k in attributes ==> cleaned[k] == Sanitized(lib, patterns, k, attributes[k]))
    && receipt.policyVersion == (if version == "" then DEFAULT_POLICY_VERSION else version)
    && (forall k :: k in attributes ==>
          (Path(k) in receipt.redactedPaths <==> Touched(lib, patterns, k, attributes[k])))
    && (forall p :: p in receipt.redactedPaths ==> exists k :: k in attributes && Path(k) == p)
    && (forall i, j :: 0 <= i < j < |receipt.redactedPaths| ==> receipt.redactedPaths[i] != receipt.redactedPaths[j])
  }

  lemma PathIsInjective(a: string, b: string)
    requires Path(a) == Path(b)
    ensures a == b
  {
    var n := |"attributes."|;
    assert Path(a)[n..] == a && Path(b)[n..] == b;
  }

  lemma {:induction false} UnhitIsUnchanged(value: string, patterns: seq<Pattern>)
    requires !Hit(value, patterns)
    ensures Replaced(value, patterns) == value
  {
    if patterns != [] {
      var rest := patterns[..|patterns| - 1];
      forall i | 0 <= i < |rest| ensures !rest[i].matches(Replaced(value, rest[..i])) {
        assert rest[..i] == patterns[..i] && rest[i] == patterns[i];
      }
      UnhitIsUnchanged(value, rest);
    }
  }

  // ---------- what is sensitive, in plain text ----------

  ghost predicate Has(text: string, part: string) {
    exists before: string, after: string :: text == before + part + after
  }

  ghost predicate HoldsMarker(text: string) {
    || Has(text, "authorization") || Has(text, "cookie") || Has(text, "api-key") || Has(text, "apikey")
    || Has(text, "token") || Has(text, "secret") || Has(text, "password")
  }

  // The key with each underscore read as a dash.
  predicate ReadsAs(key: string, reading: string) {
    |reading| == |key| && forall i :: 0 <= i < |key| ==> reading[i] == if key[i] == '_' then '-' else key[i]
  }

  ghost predicate Secret(lib: Library, key: string) {
    exists reading :: ReadsAs(key, reading) && HoldsMarker(lib.lower(reading))
  }

  lemma {:induction false} DashedReads(key: string)
    ensures ReadsAs(key, Dashed(key))
  {
    if key != "" {
      DashedReads(key[1..]);
    }
  }

  lemma ReadingIsUnique(key: string, a: string, b: string)
    requires ReadsAs(key, a) && ReadsAs(key, b)
    ensures a == b
  {
  }

  lemma HasIsContains(text: string, part: string)
    ensures Has(text, part) <==> Contains(text, part)
  {
    if before: string, after: string :| text == before + part + after {
      assert text[|before|..] == part + after;
    }
    if i :| 0 <= i <= |text| && part <= text[i..] {
      var after := text[i..][|part|..];
      assert text[i..] == part + after;
      assert text == text[..i] + part + after;
    }
  }

  lemma MarkersAreListed(text: string)
    ensures HoldsMarker(text) <==> exists marker :: marker in MARKERS && Contains(text, marker)
  {
    HasIsContains(text, "authorization");
    HasIsContains(text, "cookie");
    HasIsContains(text, "api-key");
    HasIsContains(text, "apikey");
    HasIsContains(text, "token");
    HasIsContains(text, "secret");
    HasIsContains(text, "password");
    hide Has, Contains;
  }

  lemma SensitiveIsSecret(lib: Library, key: string)
    ensures SensitiveKey(lib, key) <==> Secret(lib, key)
  {
    DashedReads(key);
    MarkersAreListed(lib.lower(Dashed(key)));
    forall reading | ReadsAs(key, reading) ensures reading == Dashed(key) {
      ReadingIsUnique(key, reading, Dashed(key));
    }
    hide Dashed, ReadsAs, HoldsMarker, Contains;
  }

  // ---------- what happens to the rest ----------

  // The value as it passes the patterns, each of which sees what the one before left.
  ghost predicate Trail(steps: seq<string>, value: string, patterns: seq<Pattern>) {
    && |steps| == |patterns| + 1 && steps[0] == value
    && forall i :: 0 <= i < |patterns| ==>
         steps[i + 1] == if patterns[i].matches(steps[i]) then patterns[i].replace(steps[i]) else steps[i]
  }

  predicate MatchedOn(steps: seq<string>, patterns: seq<Pattern>) {
    exists i :: 0 <= i < |patterns| && i < |steps| && patterns[i].matches(steps[i])
  }

  lemma {:induction false} TrailOf(value: string, patterns: seq<Pattern>) returns (steps: seq<string>)
    ensures Trail(steps, value, patterns) && steps[|patterns|] == Replaced(value, patterns)
    ensures forall i :: 0 <= i <= |patterns| ==> steps[i] == Replaced(value, patterns[..i])
    decreases |patterns|
  {
    if patterns == [] {
      steps := [value];
    } else {
      var n := |patterns| - 1;
      var before := TrailOf(value, patterns[..n]);
      steps := before + [Replaced(value, patterns)];
      forall i | 0 <= i <= |patterns| ensures steps[i] == Replaced(value, patterns[..i]) {
        if i <= n {
          assert patterns[..n][..i] == patterns[..i];
        } else {
          assert patterns[..i] == patterns;
        }
      }
    }
  }

  // A value under no sensitive key changes by the patterns alone, and is listed
  // exactly when one of them matches.
  ghost predicate ChangedByPatterns(value: string, cleaned: string, listed: bool, patterns: seq<Pattern>) {
    exists steps :: Trail(steps, value, patterns) && cleaned == steps[|patterns|]
                    && (listed <==> MatchedOn(steps, patterns))
  }

  ghost predicate HidesSecrets(lib: Library, attributes: map<string, string>, receipt: Receipt) {
    forall k :: k in attributes && Secret(lib, k) ==>
      attributes[k] == "[REDACTED]" && ("attributes." + k) in receipt.redactedPaths
  }

  // What sanitizing promises, in plain text.
  ghost predicate Cleans(lib: Library, patterns: seq<Pattern>, version: string, attributes: map<string, string>,
                         cleaned: map<string, string>, receipt: Receipt) {
    && (forall k :: k in cleaned <==> k in attributes)
    && receipt.policyVersion == (if version == "" then "v1" else version)
    && HidesSecrets(lib, cleaned, receipt)
    && (forall k :: k in attributes && !Secret(lib, k) ==>
          ChangedByPatterns(attributes[k], cleaned[k], ("attributes." + k) in receipt.redactedPaths,
                            [lib.email] + patterns))
    && (forall p :: p in receipt.redactedPaths ==> exists k :: k in attributes && p == "attributes." + k)
    && (forall i, j :: 0 <= i < j < |receipt.redactedPaths| ==> receipt.redactedPaths[i] != receipt.redactedPaths[j])
  }

  lemma PatternsChange(value: string, patterns: seq<Pattern>)
    ensures ChangedByPatterns(value, Replaced(value, patterns), Hit(value, patterns), patterns)
  {
    var steps := TrailOf(value, patterns);
    forall i | 0 <= i < |patterns| ensures steps[i] == Replaced(value, patterns[..i]) {}
    hide Replaced, Trail;
    assert MatchedOn(steps, patterns) <==> Hit(value, patterns);
  }

  lemma SanitizedCleans(lib: Library, patterns: seq<Pattern>, version: string, attributes: map<string, string>,
                        cleaned: map<string, string>, receipt: Receipt)
    requires SanitizedAs(lib, patterns, version, attributes, cleaned, receipt)
    ensures Cleans(lib, patterns, version, attributes, cleaned, receipt)
  {
    hide SensitiveKey, Secret, Replaced, Hit, ChangedByPatterns;
    forall k | k in attributes ensures SensitiveKey(lib, k) <==> Secret(lib, k) {
      SensitiveIsSecret(lib, k);
    }
    forall k | k in attributes && !Secret(lib, k)
      ensures ChangedByPatterns(attributes[k], cleaned[k], ("attributes." + k) in receipt.redactedPaths,
                                [lib.email] + patterns)
    {
      PatternsChange(attributes[k], [lib.email] + patterns);
      assert Path(k) == "attributes." + k;
    }
  }

  // What is not on the receipt is what the client sent; what lies under a
  // sensitive key is gone, and on the receipt.
  lemma ReceiptIsExact(lib: Library, patterns: seq<Pattern>, version: string, attributes: map<string, string>,
                       cleaned: map<string, string>, receipt: Receipt, k: string)
    requires SanitizedAs(lib, patterns, version, attributes, cleaned, receipt) && k in attributes
    ensures Path(k) !in receipt.redactedPaths ==> cleaned[k] == attributes[k]
    ensures SensitiveKey(lib, k) ==> cleaned[k] == REDACTED && Path(k) in receipt.redactedPaths
    ensures receipt.policyVersion != ""
  {
    if !Touched(lib, patterns, k, attributes[k]) {
      UnhitIsUnchanged(attributes[k], [lib.email] + patterns);
    }
  }

  lemma ReplaceMore(value: string, patterns: seq<Pattern>, pattern: Pattern)
    ensures Replaced(value, patterns + [pattern])
            == var before := Replaced(value, patterns);
               if pattern.matches(before) then pattern.replace(before) else before
  {
    var longer := patterns + [pattern];
    assert longer[..|longer| - 1] == patterns;
  }

  lemma HitMore(value: string, patterns: seq<Pattern>, pattern: Pattern)
    ensures Hit(value, patterns + [pattern]) <==> Hit(value, patterns) || pattern.matches(Replaced(value, patterns))
  {
    hide Replaced;
    var longer := patterns + [pattern];
    if i :| 0 <= i < |patterns| && patterns[i].matches(Replaced(value, patterns[..i])) {
      assert longer[i] == patterns[i] && longer[..i] == patterns[..i];
    }
    if pattern.matches(Replaced(value, patterns)) {
      assert longer[|patterns|] == pattern && longer[..|patterns|] == patterns;
    }
    if i :| 0 <= i < |longer| && longer[i].matches(Replaced(value, longer[..i])) {
      assert i < |patterns| ==> longer[i] == patterns[i] && longer[..i] == patterns[..i];
      assert i == |patterns| ==> longer[..i] == patterns;
    }
  }

  method RedactValue(lib: Library, value: string, patterns: seq<Pattern>)
    returns (redactedValue: string, redacted: bool)
    ensures redactedValue == Replaced(value, [lib.email] + patterns)
    ensures redacted <==> Hit(value, [lib.email] + patterns)
  {
    NothingHit(value);
    hide Replaced, Hit;
    redactedValue, redacted := value, false;
    ghost var seen: seq<Pattern> := [];
    ReplaceMore(value, seen, lib.email);
    HitMore(value, seen, lib.email);
    if lib.email.matches(redactedValue) {
      redactedValue, redacted := lib.email.replace(redactedValue), true;
    }
    seen := seen + [lib.email];
    for i := 0 to |patterns|
      invariant seen == [lib.email] + patterns[..i]
      invariant redactedValue == Replaced(value, seen) && (redacted <==> Hit(value, seen))
    {
      ReplaceMore(value, seen, patterns[i]);
      HitMore(value, seen, patterns[i]);
      if patterns[i].matches(redactedValue) {
        redactedValue, redacted := patterns[i].replace(redactedValue), true;
      }
      seen := seen + [patterns[i]];
    }
    assert patterns[..|patterns|] == patterns;
  }

  lemma NothingHit(value: string)
    ensures Replaced(value, []) == value && !Hit(value, [])
  {
  }

  // What the loop over the attributes has done for those no longer pending.
  ghost predicate CleanedSofar(lib: Library, patterns: seq<Pattern>, attributes: map<string, string>, pending: set<string>,
                               cleaned: map<string, string>, paths: seq<string>) {
    && (forall k :: k in cleaned <==> k in attributes && k !in pending)
    && (forall k :: k in cleaned ==> cleaned[k] == Sanitized(lib, patterns, k, attributes[k]))
    && (forall k :: k in cleaned && Touched(lib, patterns, k, attributes[k]) ==> Path(k) in paths)
    && (forall p :: p in paths ==> exists k :: k in cleaned && Path(k) == p && Touched(lib, patterns, k, attributes[k]))
    && (forall i, j :: 0 <= i < j < |paths| ==> paths[i] != paths[j])
  }

  lemma OneMoreCleaned(lib: Library, patterns: seq<Pattern>, attributes: map<string, string>, pending: set<string>,
                       cleaned: map<string, string>, paths: seq<string>, key: string, value: string,
                       listed: seq<string>)
    requires CleanedSofar(lib, patterns, attributes, pending, cleaned, paths) && key in pending && key in attributes
    requires value == Sanitized(lib, patterns, key, attributes[key])
    requires listed == if Touched(lib, patterns, key, attributes[key]) then paths + [Path(key)] else paths
    ensures CleanedSofar(lib, patterns, attributes, pending - {key}, cleaned[key := value], listed)
  {
    hide Sanitized, Touched;
    NotYetListed(cleaned, paths, key);
    var more := cleaned[key := value];
    forall p | p in listed
      ensures exists k :: k in more && Path(k) == p && Touched(lib, patterns, k, attributes[k])
    {
      if p in paths {
        var k :| k in cleaned && Path(k) == p && Touched(lib, patterns, k, attributes[k]);
        assert k in more;
      } else {
        assert p == Path(key) && key in more;
      }
    }
    hide Path;
  }

  method Sanitize(lib: Library, attributes: map<string, string>, policyVersion: string, patterns: seq<Pattern>)
    returns (cleaned: map<string, string>, receipt: Receipt)
    ensures SanitizedAs(lib, patterns, policyVersion, attributes, cleaned, receipt)
    ensures Cleans(lib, patterns, policyVersion, attributes, cleaned, receipt)
  {
    hide SensitiveKey, Replaced, Hit, Cleans, CleanedSofar, SanitizedAs;
    var version := if policyVersion == "" then DEFAULT_POLICY_VERSION else policyVersion;
    cleaned := map[];
    var paths: seq<string> := [];
    var pending := attributes.Keys;
    NothingCleaned(lib, patterns, attributes);
    while pending != {}
      invariant pending <= attributes.Keys && CleanedSofar(lib, patterns, attributes, pending, cleaned, paths)
      decreases pending
    {
      var key :| key in pending;
      ghost var before, beforePaths := cleaned, paths;
      if SensitiveKey(lib, key) {
        cleaned := cleaned[key := REDACTED];
        paths := paths + [Path(key)];
      } else {
        var value, redacted := RedactValue(lib, attributes[key], patterns);
        cleaned := cleaned[key := value];
        if redacted {
          paths := paths + [Path(key)];
        }
      }
      OneMoreCleaned(lib, patterns, attributes, pending, before, beforePaths, key, cleaned[key], paths);
      pending := pending - {key};
    }
    receipt := Receipt(version, paths);
    AllCleaned(lib, patterns, policyVersion, attributes, cleaned, receipt);
    SanitizedCleans(lib, patterns, policyVersion, attributes, cleaned, receipt);
  }

  lemma NothingCleaned(lib: Library, patterns: seq<Pattern>, attributes: map<string, string>)
    ensures CleanedSofar(lib, patterns, attributes, attributes.Keys, map[], [])
  {
  }

  lemma AllCleaned(lib: Library, patterns: seq<Pattern>, version: string, attributes: map<string, string>,
                   cleaned: map<string, string>, receipt: Receipt)
    requires CleanedSofar(lib, patterns, attributes, {}, cleaned, receipt.redactedPaths)
    requires receipt.policyVersion == if version == "" then DEFAULT_POLICY_VERSION else version
    ensures SanitizedAs(lib, patterns, version, attributes, cleaned, receipt)
  {
    hide SensitiveKey, Replaced, Hit;
    ListedExactly(lib, patterns, attributes, receipt.redactedPaths);
  }

  lemma NotYetListed(done: map<string, string>, paths: seq<string>, key: string)
    requires key !in done && forall p :: p in paths ==> exists k :: k in done && Path(k) == p
    ensures Path(key) !in paths
  {
    if Path(key) in paths {
      var k :| k in done && Path(k) == Path(key);
      PathIsInjective(k, key);
    }
  }

  lemma ListedExactly(lib: Library, patterns: seq<Pattern>, attributes: map<string, string>, paths: seq<string>)
    requires forall p :: p in paths ==>
               exists k :: k in attributes && Path(k) == p && Touched(lib, patterns, k, attributes[k])
    ensures forall k :: k in attributes && Path(k) in paths ==> Touched(lib, patterns, k, attributes[k])
  {
    forall k | k in attributes && Path(k) in paths ensures Touched(lib, patterns, k, attributes[k]) {
      var other :| other in attributes && Path(other) == Path(k) && Touched(lib, patterns, other, attributes[other]);
      PathIsInjective(other, k);
    }
  }
}
