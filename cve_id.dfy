/**
 * The CVE identifier clean-up and check that every lookup tool runs before
 * it contacts a database: upper-case, strip, add a missing `CVE-` prefix,
 * then accept only `CVE-` + four digits + `-` + at least four digits.
 */
module CveId {
  import opened Common
  import opened Text

  const Prefix: string := "CVE-"

  /** The identifier after `upper()`, `strip()` and prefixing, as the tools print it. */
  function Normalize(raw: string): (id: string)
    ensures Prefix <= id
    ensures IsUpper(id) && IsStripped(id)
  {
    var cleaned := Strip(Upper(raw));
    UpperIsUpper(raw);
    StripUpper(Upper(raw));
    if Prefix <= cleaned then cleaned else Prefix + cleaned
  }

  /** The pattern `^CVE-\d{4}-\d{4,}$`. */
  predicate IsWellFormed(id: string)
  {
    |id| >= 13 && id[..4] == Prefix && AllDigits(id[4..8]) && id[8] == '-' && AllDigits(id[9..])
  }

  /** The check of the three tools: the normalised identifier, or it again as the error. */
  function Validate(raw: string): (r: Result<string, string>)
  {
    var id := Normalize(raw);
    if IsWellFormed(id) then Success(id) else Failure(id)
  }

  /** Normalising twice is normalising once. */
  lemma {:induction false} NormalizeIdempotent(raw: string)
    ensures Normalize(Normalize(raw)) == Normalize(raw)
  {
    var id := Normalize(raw);
    UpperOfUpper(id);
    StripStripped(id);
  }

  /** An accepted identifier is accepted again, unchanged. */
  lemma ValidateFixpoint(raw: string)
    ensures Validate(raw).Success? ==> Validate(Validate(raw).value) == Validate(raw)
  {
    NormalizeIdempotent(raw);
  }

  /** The pattern accepts exactly `CVE-` + four digits + `-` + four or more digits. */
  lemma WellFormedIff(id: string)
    ensures IsWellFormed(id) <==>
      exists year: string, serial: string ::
        |year| == 4 && |serial| >= 4 && AllDigits(year) && AllDigits(serial)
        && id == Prefix + year + "-" + serial
  {
    if IsWellFormed(id) {
      assert id == Prefix + id[4..8] + "-" + id[9..];
    }
    if exists year: string, serial: string ::
        |year| == 4 && |serial| >= 4 && AllDigits(year) && AllDigits(serial)
        && id == Prefix + year + "-" + serial
    {
      var year: string, serial: string :|
        |year| == 4 && |serial| >= 4 && AllDigits(year) && AllDigits(serial)
        && id == Prefix + year + "-" + serial;
      assert id[4..8] == year && id[9..] == serial;
    }
  }

  lemma UpperPadded(pre: string, body: string, post: string)
    requires AllWhitespace(pre) && AllWhitespace(post)
    ensures Upper(pre + body + post) == pre + Upper(body) + post
  {
    var s := pre + body + post;
    assert forall k | 0 <= k < |pre| :: s[k] == pre[k];
    assert forall k | 0 <= k < |post| :: s[|pre| + |body| + k] == post[k];
  }

  /** Padding and letter case do not reach the cleaned identifier. */
  lemma CleanedPadded(pre: string, body: string, post: string)
    requires AllWhitespace(pre) && AllWhitespace(post) && IsStripped(Upper(body))
    ensures Strip(Upper(pre + body + post)) == Upper(body)
  {
    UpperPadded(pre, body, post);
    StripPadded(pre, Upper(body), post);
  }

  lemma Canonical(year: string, serial: string)
    requires |year| == 4 && |serial| >= 4 && AllDigits(year) && AllDigits(serial)
    ensures IsWellFormed(Prefix + year + "-" + serial)
    ensures IsStripped(Prefix + year + "-" + serial) && IsStripped(year + "-" + serial)
    ensures !(Prefix <= year + "-" + serial)
  {
    var canonical := Prefix + year + "-" + serial;
    assert canonical[4..8] == year && canonical[9..] == serial;
    assert canonical[|canonical| - 1] == serial[|serial| - 1];
    assert (year + "-" + serial)[0] == year[0];
  }

  /** Adding the missing prefix to either spelling gives the canonical identifier. */
  lemma Prefixed(year: string, serial: string, cleaned: string)
    requires |year| == 4 && |serial| >= 4 && AllDigits(year) && AllDigits(serial)
    requires cleaned == Prefix + year + "-" + serial || cleaned == year + "-" + serial
    ensures (if Prefix <= cleaned then cleaned else Prefix + cleaned) == Prefix + year + "-" + serial
  {
    Canonical(year, serial);
    if cleaned == year + "-" + serial {
      assert Prefix + cleaned == Prefix + year + "-" + serial;
    }
  }

  /**
   * Whatever the letter case, the surrounding whitespace and whether the
   * `CVE-` prefix was written, a year and a serial of the right lengths are
   * accepted as `CVE-<year>-<serial>`.
   */
  lemma {:induction false} ValidateAccepts(pre: string, body: string, post: string, year: string, serial: string)
    requires AllWhitespace(pre) && AllWhitespace(post)
    requires |year| == 4 && |serial| >= 4 && AllDigits(year) && AllDigits(serial)
    requires Upper(body) == Prefix + year + "-" + serial || Upper(body) == year + "-" + serial
    ensures Validate(pre + body + post) == Success(Prefix + year + "-" + serial)
  {
    Canonical(year, serial);
    CleanedPadded(pre, body, post);
    Prefixed(year, serial, Upper(body));
  }

  lemma ExampleText()
    ensures AllDigits("2021") && AllDigits("44228") && IsUpper("2021-44228")
    ensures "2021" + "-" + "44228" == "2021-44228"
    ensures " " + "2021-44228" + "\n" == " 2021-44228\n"
    ensures "" + ("cve-" + "2021-44228") + "" == "cve-2021-44228"
    ensures Prefix + "2021" + "-" + "44228" == "CVE-2021-44228"
    ensures Upper("cve-") == Prefix
  {
  }

  /** The tools' example identifier, written bare with padding. */
  lemma ValidateExample()
    ensures Validate(" 2021-44228\n") == Success("CVE-2021-44228")
  {
    ExampleText();
    UpperOfUpper("2021-44228");
    ValidateAccepts(" ", "2021-44228", "\n", "2021", "44228");
  }

  /** The same identifier in lower case. */
  lemma ValidateLowerCaseExample()
    ensures Validate("cve-2021-44228") == Success("CVE-2021-44228")
  {
    ExampleText();
    UpperOfUpper("2021-44228");
    UpperAppend("cve-", "2021-44228");
    ValidateAccepts("", "cve-" + "2021-44228", "", "2021", "44228");
  }
}
