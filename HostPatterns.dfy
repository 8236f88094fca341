/**
 * The two allow-lists of trusted embed hosts (src/util.ts, lines 9-15),
 * re-expressed as string predicates. Each regular expression is given twice:
 * as an independent statement of what it accepts, and as the executable
 * check the authoriser uses; a lemma proves the two agree on every hostname.
 * For the commercial pattern the statement is a ghost predicate that follows
 * ECMAScript's `RegExp.prototype.test`; the sovereign pattern is anchored at
 * both ends, so its statement is the finite set `SovereignHosts`.
 */
module HostPatterns {
  import opened JsStrings

  /** The literal tails of the four alternatives of the commercial pattern. */
  const PowerBiSuffix := ".powerbi.com"
  const FabricSuffix := ".fabric.microsoft.com"
  const AnalysisIntSuffix := ".analysis.windows-int.net"
  const AnalysisDfSuffix := ".analysis-df.windows.net"

  /**
   * `/.+LIT$/` matches `h` with the match starting at index `p`: one or more
   * characters other than line terminators run from `p` up to `LIT`, and
   * `LIT` ends the string.
   */
  ghost predicate DotPlusLiteralAt(h: string, lit: string, p: int)
  {
    && 0 <= p < |h| - |lit|
    && EndsWith(h, lit)
    && forall j :: p <= j < |h| - |lit| ==> !IsLineTerminator(h[j])
  }

  /** `/.+LIT$/.test(h)`: the pattern is unanchored at the start, so any start index will do. */
  ghost predicate DotPlusLiteralTest(h: string, lit: string)
  {
    exists p :: DotPlusLiteralAt(h, lit, p)
  }

  /** `allowedPowerBiHostsRegex.test(h)`, alternative by alternative. */
  ghost predicate CommercialRegexTest(h: string)
  {
    || DotPlusLiteralTest(h, PowerBiSuffix)
    || DotPlusLiteralTest(h, FabricSuffix)
    || DotPlusLiteralTest(h, AnalysisIntSuffix)
    || DotPlusLiteralTest(h, AnalysisDfSuffix)
  }

  /** `h` ends with `lit` and has, just before it, a character that `.` matches. */
  predicate SuffixAfterOneChar(h: string, lit: string)
  {
    |h| > |lit| && EndsWith(h, lit) && !IsLineTerminator(h[|h| - |lit| - 1])
  }

  /** Looking at the single character before the literal decides the whole search. */
  lemma SuffixAfterOneCharIsTest(h: string, lit: string)
    ensures SuffixAfterOneChar(h, lit) <==> DotPlusLiteralTest(h, lit)
  {
    if SuffixAfterOneChar(h, lit) {
      assert DotPlusLiteralAt(h, lit, |h| - |lit| - 1);
    }
    if DotPlusLiteralTest(h, lit) {
      var p :| DotPlusLiteralAt(h, lit, p);
      assert p <= |h| - |lit| - 1;
    }
  }

  /**
   * The commercial-cloud check: a hostname is accepted exactly when it ends
   * with one of the four suffixes and has at least one (non line-terminator)
   * character in front of it.
   */
  function IsCommercialHost(h: string): (r: bool)
    ensures r <==> CommercialRegexTest(h)
  {
    SuffixAfterOneCharIsTest(h, PowerBiSuffix);
    SuffixAfterOneCharIsTest(h, FabricSuffix);
    SuffixAfterOneCharIsTest(h, AnalysisIntSuffix);
    SuffixAfterOneCharIsTest(h, AnalysisDfSuffix);
    || SuffixAfterOneChar(h, PowerBiSuffix)
    || SuffixAfterOneChar(h, FabricSuffix)
    || SuffixAfterOneChar(h, AnalysisIntSuffix)
    || SuffixAfterOneChar(h, AnalysisDfSuffix)
  }

  /** The language of the sovereign pattern: it is anchored at both ends, so it is finite. */
  const SovereignHosts: set<string> := {
    "app.powerbi.cn",
    "app.powerbigov.us",
    "app.mil.powerbigov.us",
    "app.high.powerbigov.us",
    "app.powerbi.eaglex.ic.gov",
    "app.powerbi.microsoft.scloud"
  }

  /** The alternative `^app(\.mil\.|\.high\.|\.)powerbigov\.us$`. */
  predicate GovCloudAlternative(h: string)
  {
    && |h| >= 3
    && h[..3] == "app"
    && (h[3..] == ".mil.powerbigov.us" || h[3..] == ".high.powerbigov.us" || h[3..] == ".powerbigov.us")
  }

  /** The middle alternative accepts exactly the three `powerbigov.us` hosts. */
  lemma GovCloudAlternativeHosts(h: string)
    ensures GovCloudAlternative(h) <==> h in {"app.powerbigov.us", "app.mil.powerbigov.us", "app.high.powerbigov.us"}
  {
    if GovCloudAlternative(h) {
      GovCloudAlternativeSound(h);
    }
    GovCloudAlternativeComplete(h);
  }

  lemma GovCloudAlternativeSound(h: string)
    requires GovCloudAlternative(h)
    ensures h in {"app.powerbigov.us", "app.mil.powerbigov.us", "app.high.powerbigov.us"}
  {
    assert h == h[..3] + h[3..];
    if h[3..] == ".mil.powerbigov.us" {
      assert "app" + ".mil.powerbigov.us" == "app.mil.powerbigov.us";
      assert h == "app.mil.powerbigov.us";
    } else if h[3..] == ".high.powerbigov.us" {
      assert "app" + ".high.powerbigov.us" == "app.high.powerbigov.us";
      assert h == "app.high.powerbigov.us";
    } else {
      assert "app" + ".powerbigov.us" == "app.powerbigov.us";
      assert h == "app.powerbigov.us";
    }
  }

  lemma GovCloudAlternativeComplete(h: string)
    ensures h in {"app.powerbigov.us", "app.mil.powerbigov.us", "app.high.powerbigov.us"} ==> GovCloudAlternative(h)
  {
    if h == "app.powerbigov.us" {
      assert h[..3] == "app" && h[3..] == ".powerbigov.us";
    } else if h == "app.mil.powerbigov.us" {
      assert h[..3] == "app" && h[3..] == ".mil.powerbigov.us";
    } else if h == "app.high.powerbigov.us" {
      assert h[..3] == "app" && h[3..] == ".high.powerbigov.us";
    }
  }

  /** `allowedPowerBiHostsSovRegex.test(h)`: true for exactly the six sovereign hostnames. */
  function IsSovereignHost(h: string): (r: bool)
    ensures r <==> h in SovereignHosts
  {
    GovCloudAlternativeHosts(h);
    || h == "app.powerbi.cn"
    || GovCloudAlternative(h)
    || h == "app.powerbi.eaglex.ic.gov"
    || h == "app.powerbi.microsoft.scloud"
  }

  /** No hostname is on both lists. */
  lemma AllowListsDisjoint(h: string)
    ensures !(IsCommercialHost(h) && IsSovereignHost(h))
  {
  }

  /** Hosts that merely contain a trusted name are refused. */
  lemma LookalikeHostsRejected()
    ensures IsCommercialHost("app.powerbi.com")
    ensures !IsCommercialHost("powerbi.com")
    ensures !IsCommercialHost(".powerbi.com")
    ensures !IsCommercialHost("x.powerbi.com.evil.com")
    ensures !IsSovereignHost("evil.app.powerbi.cn")
  {
  }
}
