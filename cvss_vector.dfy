/**
 * `parse_cvss_vector`: strip the vector, match the `CVSS:<major>.<minor>/`
 * header, accept only versions 3.0 and 3.1, then fold the `/`-separated
 * `KEY:VALUE` tokens after the header into a dictionary that starts with the
 * version under the key "version". Tokens without a `:` are skipped; a later
 * token overwrites an earlier one with the same key.
 */
module CvssVector {
  import opened Common
  import opened Text

  datatype ParseError =
    | FormatError                      // the vector does not start with CVSS:x.x/
    | UnsupportedVersion(version: string)

  const HeaderPrefix: string := "CVSS:"

  // --------------------------------------------------------------- header

  /** The length of the run of digits that starts at `from`. */
  function DigitRun(s: string, from: nat): (n: nat)
    requires from <= |s|
    ensures from + n <= |s|
    ensures AllDigits(s[from..from + n])
    ensures from + n == |s| || !IsDigit(s[from + n])
    decreases |s| - from
  {
    if from == |s| || !IsDigit(s[from]) then 0
    else
      var n := DigitRun(s, from + 1);
      assert s[from..from + 1 + n] == [s[from]] + s[from + 1..from + 1 + n];
      1 + n
  }

  /**
   * The regular expression `^CVSS:(\d+\.\d+)/` and its group: both digit runs
   * are greedy, and neither can give a character back, because the character
   * that must follow each (`.` and `/`) is not a digit.
   */
  function MatchHeader(s: string): Option<string>
  {
    if !(HeaderPrefix <= s) then None
    else
      var n1 := DigitRun(s, 5);
      var dot := 5 + n1;
      if n1 == 0 || dot == |s| || s[dot] != '.' then None
      else
        var n2 := DigitRun(s, dot + 1);
        var slash := dot + 1 + n2;
        if n2 == 0 || slash == |s| || s[slash] != '/' then None
        else Some(s[5..slash])
  }

  /** A matched version is two non-empty digit runs around a dot, between `CVSS:` and `/`. */
  lemma MatchHeaderSound(s: string)
    ensures MatchHeader(s).Some? ==>
      exists major: string, minor: string ::
        && major != [] && minor != [] && AllDigits(major) && AllDigits(minor)
        && MatchHeader(s).value == major + "." + minor
        && HeaderPrefix + MatchHeader(s).value + "/" <= s
  {
    if MatchHeader(s).Some? {
      var dot := 5 + DigitRun(s, 5);
      var slash := dot + 1 + DigitRun(s, dot + 1);
      assert s[5..slash] == s[5..dot] + "." + s[dot + 1..slash];
      assert s[..slash + 1] == HeaderPrefix + s[5..slash] + "/";
    }
  }

  lemma {:induction false} DigitRunOf(s: string, from: nat, digits: string)
    requires from + |digits| <= |s| && s[from..from + |digits|] == digits && AllDigits(digits)
    requires from + |digits| == |s| || !IsDigit(s[from + |digits|])
    ensures DigitRun(s, from) == |digits|
    decreases |digits|
  {
    if digits != [] {
      assert s[from] == digits[0];
      assert s[from + 1..from + 1 + |digits[1..]|] == digits[1..];
      DigitRunOf(s, from + 1, digits[1..]);
    }
  }

  lemma MatchHeaderAt(s: string, n1: nat, n2: nat)
    requires HeaderPrefix <= s && 0 < n1 && 0 < n2 && 6 + n1 + n2 < |s|
    requires DigitRun(s, 5) == n1 && s[5 + n1] == '.'
    requires DigitRun(s, 6 + n1) == n2 && s[6 + n1 + n2] == '/'
    ensures MatchHeader(s) == Some(s[5..6 + n1 + n2])
  {
  }

  /** Where the pieces of a `CVSS:<major>.<minor>/<rest>` header sit. */
  lemma HeaderLayout(version: string, major: string, minor: string, rest: string)
    requires version == major + "." + minor
    ensures var s := HeaderPrefix + version + "/" + rest;
      var dot := 5 + |major|;
      var slash := dot + 1 + |minor|;
      && slash < |s| && HeaderPrefix <= s
      && s[5..dot] == major && s[dot] == '.' && s[dot + 1..slash] == minor && s[slash] == '/'
      && s[5..slash] == version
  {
  }

  /** Every `CVSS:<digits>.<digits>/` header is matched, with its version as the group. */
  lemma MatchHeaderOf(version: string, major: string, minor: string, rest: string)
    requires major != [] && minor != [] && AllDigits(major) && AllDigits(minor)
    requires version == major + "." + minor
    ensures MatchHeader(HeaderPrefix + version + "/" + rest) == Some(version)
  {
    var s := HeaderPrefix + version + "/" + rest;
    HeaderLayout(version, major, minor, rest);
    DigitRunOf(s, 5, major);
    DigitRunOf(s, 6 + |major|, minor);
    MatchHeaderAt(s, |major|, |minor|);
  }

  /** The two supported versions are matched in every header that carries them. */
  lemma SupportedHeader(version: string, rest: string)
    requires version == "3.0" || version == "3.1"
    ensures MatchHeader(HeaderPrefix + version + "/" + rest) == Some(version)
  {
    var minor := if version == "3.0" then "0" else "1";
    assert version == "3" + "." + minor;
    assert AllDigits("3") && AllDigits(minor);
    MatchHeaderOf(version, "3", minor, rest);
  }

  // --------------------------------------------------------------- tokens

  /** One loop step: a `KEY:VALUE` token sets KEY to VALUE; a token without `:` changes nothing. */
  function Apply(metrics: map<string, string>, token: string): map<string, string>
  {
    if ':' in token then
      var kv := SplitFirst(token, ':');
      metrics[kv.0 := kv.1]
    else metrics
  }

  /** The dictionary after applying `tokens` in order. */
  function TokensInto(base: map<string, string>, tokens: seq<string>): map<string, string>
  {
    if tokens == [] then base
    else Apply(TokensInto(base, tokens[..|tokens| - 1]), tokens[|tokens| - 1])
  }

  /** The key a token sets, if it has one. */
  predicate SetsKey(token: string, key: string)
  {
    ':' in token && SplitFirst(token, ':').0 == key
  }

  /** The index of the last of the first `n` tokens that sets `key`, if any does. */
  function LastSetterBefore(tokens: seq<string>, key: string, n: nat): (r: Option<nat>)
    requires n <= |tokens|
    ensures r.Some? ==> r.value < n && SetsKey(tokens[r.value], key)
  {
    if n == 0 then None
    else if SetsKey(tokens[n - 1], key) then Some(n - 1)
    else LastSetterBefore(tokens, key, n - 1)
  }

  /** The index of the last token that sets `key`, if any does. */
  function LastSetter(tokens: seq<string>, key: string): (r: Option<nat>)
    ensures r.Some? ==> r.value < |tokens| && SetsKey(tokens[r.value], key)
  {
    LastSetterBefore(tokens, key, |tokens|)
  }

  /** No token after the last setter sets the key; with no setter, no token sets it. */
  lemma {:induction false} LastSetterBeforeIsLast(tokens: seq<string>, key: string, n: nat)
    requires n <= |tokens|
    ensures var r := LastSetterBefore(tokens, key, n);
      && (r.Some? ==> forall l | r.value < l < n :: !SetsKey(tokens[l], key))
      && (r.None? ==> forall j | 0 <= j < n :: !SetsKey(tokens[j], key))
  {
    if n > 0 && !SetsKey(tokens[n - 1], key) {
      LastSetterBeforeIsLast(tokens, key, n - 1);
      assert LastSetterBefore(tokens, key, n) == LastSetterBefore(tokens, key, n - 1);
    }
  }

  lemma LastSetterIsLast(tokens: seq<string>, key: string)
    ensures var r := LastSetter(tokens, key);
      && (r.Some? ==> forall l | r.value < l < |tokens| :: !SetsKey(tokens[l], key))
      && (r.None? ==> forall j | 0 <= j < |tokens| :: !SetsKey(tokens[j], key))
  {
    LastSetterBeforeIsLast(tokens, key, |tokens|);
  }

  /** The fold of the first `n` tokens: the last setter among them decides the key. */
  lemma {:induction false} TokensIntoLastWinsBefore(base: map<string, string>, tokens: seq<string>, key: string, n: nat)
    requires n <= |tokens|
    ensures LastSetterBefore(tokens, key, n).Some? ==>
      key in TokensInto(base, tokens[..n])
      && TokensInto(base, tokens[..n])[key] == SplitFirst(tokens[LastSetterBefore(tokens, key, n).value], ':').1
    ensures LastSetterBefore(tokens, key, n).None? ==>
      (key in TokensInto(base, tokens[..n]) <==> key in base)
      && (key in base ==> TokensInto(base, tokens[..n])[key] == base[key])
  {
    if n > 0 {
      assert tokens[..n][..n - 1] == tokens[..n - 1];
      assert tokens[..n][n - 1] == tokens[n - 1];
      if !SetsKey(tokens[n - 1], key) {
        TokensIntoLastWinsBefore(base, tokens, key, n - 1);
      }
    }
  }

  /**
   * The last token that sets a key decides its value; a key no token sets
   * keeps the base's value, or stays absent.
   */
  lemma TokensIntoLastWins(base: map<string, string>, tokens: seq<string>, key: string)
    ensures LastSetter(tokens, key).Some? ==>
      key in TokensInto(base, tokens)
      && TokensInto(base, tokens)[key] == SplitFirst(tokens[LastSetter(tokens, key).value], ':').1
    ensures LastSetter(tokens, key).None? ==>
      (key in TokensInto(base, tokens) <==> key in base)
      && (key in base ==> TokensInto(base, tokens)[key] == base[key])
  {
    TokensIntoLastWinsBefore(base, tokens, key, |tokens|);
    assert tokens[..|tokens|] == tokens;
  }

  /** Applying two runs of tokens is applying their concatenation. */
  lemma {:induction false} TokensIntoAppend(base: map<string, string>, a: seq<string>, b: seq<string>)
    ensures TokensInto(base, a + b) == TokensInto(TokensInto(base, a), b)
    decreases |b|
  {
    if b == [] {
      assert a + b == a;
    } else {
      assert (a + b)[..|a + b| - 1] == a + b[..|b| - 1];
      TokensIntoAppend(base, a, b[..|b| - 1]);
    }
  }

  /** One more token is one more `Apply`. */
  lemma TokensIntoStep(base: map<string, string>, tokens: seq<string>, i: nat)
    requires i < |tokens|
    ensures TokensInto(base, tokens[..i + 1]) == Apply(TokensInto(base, tokens[..i]), tokens[i])
  {
    assert tokens[..i + 1][..i] == tokens[..i];
  }

  // -------------------------------------------------------------- parsing

  /** The dictionary `parse_cvss_vector` returns, or the error it raises. */
  function ParseSpec(vector: string): Result<map<string, string>, ParseError>
  {
    var s := Strip(vector);
    match MatchHeader(s)
    case None => Failure(FormatError)
    case Some(version) =>
      if version != "3.0" && version != "3.1" then Failure(UnsupportedVersion(version))
      else Success(TokensInto(map["version" := version], Split(s, '/')[1..]))
  }

  /** `parse_cvss_vector`, with its loop over the tokens after the header. */
  method ParseVector(vector: string) returns (r: Result<map<string, string>, ParseError>)
    ensures r == ParseSpec(vector)
  {
    var s := Strip(vector);
    var header := MatchHeader(s);
    if header.None? {
      return Failure(FormatError);
    }
    var version := header.value;
    if version != "3.0" && version != "3.1" {
      return Failure(UnsupportedVersion(version));
    }
    var metrics := map["version" := version];
    var parts := Split(s, '/')[1..];
    var i := 0;
    while i < |parts|
      invariant 0 <= i <= |parts|
      invariant metrics == TokensInto(map["version" := version], parts[..i])
    {
      var part := parts[i];
      TokensIntoStep(map["version" := version], parts, i);
      if ':' in part {
        var kv := SplitFirst(part, ':');
        metrics := metrics[kv.0 := kv.1];
      }
      i := i + 1;
    }
    assert parts[..i] == parts;
    return Success(metrics);
  }

  /**
   * A parsed dictionary always has a "version" entry; it is the header's
   * version unless a later `version:` token overrode it.
   */
  lemma ParsedVersion(vector: string)
    ensures ParseSpec(vector).Success? ==>
      var s := Strip(vector);
      && "version" in ParseSpec(vector).value
      && (LastSetter(Split(s, '/')[1..], "version").None? ==>
            ParseSpec(vector).value["version"] == MatchHeader(s).value)
  {
    var s := Strip(vector);
    if ParseSpec(vector).Success? {
      TokensIntoLastWins(map["version" := MatchHeader(s).value], Split(s, '/')[1..], "version");
    }
  }

  /**
   * A well-formed header of any version other than 3.0 and 3.1 is rejected
   * with that version, whatever follows it in a vector the strip leaves unchanged.
   */
  lemma UnsupportedVersionRejected(version: string, major: string, minor: string, rest: string)
    requires major != [] && minor != [] && AllDigits(major) && AllDigits(minor)
    requires version == major + "." + minor && version != "3.0" && version != "3.1"
    requires IsStripped(HeaderPrefix + version + "/" + rest)
    ensures ParseSpec(HeaderPrefix + version + "/" + rest) == Failure(UnsupportedVersion(version))
  {
    StripStripped(HeaderPrefix + version + "/" + rest);
    MatchHeaderOf(version, major, minor, rest);
  }

  lemma MatchHeaderNeedsSlash(s: string)
    ensures MatchHeader(s).Some? ==> '/' in s
  {
    if MatchHeader(s).Some? {
      var dot := 5 + DigitRun(s, 5);
      assert s[dot + 1 + DigitRun(s, dot + 1)] == '/';
    }
  }

  /** A vector with no `/` has no header, so it is a format error. */
  lemma NoSlashFormatError(vector: string)
    requires '/' !in vector
    ensures ParseSpec(vector) == Failure(FormatError)
  {
    StripInside(vector);
    MatchHeaderNeedsSlash(Strip(vector));
  }
}
