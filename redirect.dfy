/**
 * The redirect allowlist of the "better information for tracing" journey and the
 * guard that every handler passes its redirect target through (safeRedirect).
 */
module Redirect {

  /** The route prefix every page of this journey lives under. */
  const JourneyRoot := "/apply/february2025" + "/better-information-for-tracing/"

  const OpName := JourneyRoot + "op-name"
  const OpDob := JourneyRoot + "op-dob"
  const OpAddress1 := JourneyRoot + "op-address-1"
  const OpPhone := JourneyRoot + "op-phone"
  const OpNino := JourneyRoot + "op-nino"
  const OpAnythingElse := JourneyRoot + "op-anything-else"
  const OpPreviousAddress := JourneyRoot + "op-previous-address"
  const OpPreviousReplay := JourneyRoot + "op-previous-replay"
  const CheckYourAnswers := JourneyRoot + "check-your-answers"
  const WelcomePage := JourneyRoot + "welcome"

  /** The only paths this controller may ever redirect to. */
  const AllowedPaths: set<string> := {
    OpName, OpDob, OpAddress1, OpPhone, OpNino, OpAnythingElse,
    OpPreviousAddress, OpPreviousReplay, CheckYourAnswers, WelcomePage
  }

  /** The diagnostic body of a rejected redirect. */
  const InvalidTarget := "Invalid redirect target"

  /** What a handler answers with, in place of the web framework's response object. */
  datatype Response =
    | Redirect303(location: string)   // "303 See Other": the browser follows up with a GET
    | BadRequest(message: string)     // status 400 with a plain-text body
    | Next                            // not handled here: the next handler for the route runs
    | Render(template: string)        // a rendered page, no redirect

  /** ASCII case folding to lower case, as a non-unicode `/i` regular expression compares letters. */
  function LowerAscii(c: char): (l: char)
    ensures 'A' <= c <= 'Z' ==> 'a' <= l <= 'z' && l as int - c as int == 32
    ensures !('A' <= c <= 'Z') ==> l == c
  {
    if 'A' <= c <= 'Z' then (c as int + 32) as char else c
  }

  /** `s` starts with the lower-case ASCII text `p`, ignoring the case of letters in `s`. */
  predicate StartsWithIgnoringCase(s: string, p: string) {
    |p| <= |s| && forall i :: 0 <= i < |p| ==> LowerAscii(s[i]) == p[i]
  }

  /** The regular expression /^https?:/i matches `s`. */
  predicate HasHttpScheme(s: string): (matched: bool)
    ensures matched <==>
      |s| >= 5 && s[0] in "hH" && s[1] in "tT" && s[2] in "tT" && s[3] in "pP" &&
      (s[4] == ':' || (|s| >= 6 && s[4] in "sS" && s[5] == ':'))
  {
    StartsWithIgnoringCase(s, "http:") || StartsWithIgnoringCase(s, "https:")
  }

  /** An absolute, same-site path: starts with one `/`, not `//`, and carries no http(s) scheme. */
  predicate LooksInternal(target: string): (internal: bool)
    ensures internal <==> |target| >= 1 && target[0] == '/' && (|target| == 1 || target[1] != '/')
  {
    "/" <= target && !("//" <= target) && !HasHttpScheme(target)
  }

  /**
   * safeRedirect: a 303 redirect to `target` when it looks internal and is allowlisted,
   * otherwise a 400 with the diagnostic body. Since every allowlisted path looks internal,
   * the verdict is exactly allowlist membership, and the redirect goes to `target` itself.
   */
  function SafeRedirect(target: string): (r: Response)
    ensures r.Redirect303? <==> target in AllowedPaths
    ensures r.Redirect303? ==> r.location == target
    ensures !r.Redirect303? ==> r == BadRequest(InvalidTarget)
  {
    AllowedPathsLookInternal();
    if LooksInternal(target) && target in AllowedPaths then Redirect303(target)
    else BadRequest(InvalidTarget)
  }

  /** Every allowlisted path passes the shape test, so the shape test never rejects one of them. */
  lemma AllowedPathsLookInternal()
    ensures forall p :: p in AllowedPaths ==> LooksInternal(p)
  {
  }

  /** A target whose first two characters are `/` and something else is a single-slash path. */
  lemma SingleSlashShape(target: string)
    requires |target| >= 2 && target[0] == '/' && target[1] != '/'
    ensures LooksInternal(target)
  {
  }

  /** A target that starts with `/` can never match /^https?:/i: that test is implied by the first. */
  lemma SlashExcludesScheme(target: string)
    requires "/" <= target
    ensures !HasHttpScheme(target)
  {
  }

  /** No open redirect: anything that does not look like a same-site path is answered with a 400. */
  lemma OffSiteTargetsRejected(target: string)
    requires !LooksInternal(target)
    ensures SafeRedirect(target) == BadRequest(InvalidTarget)
  {
  }

  /** Two pages under the journey root are the same page only when their names are the same. */
  lemma UnderRootInjective(a: string, b: string)
    requires JourneyRoot + a == JourneyRoot + b
    ensures a == b
  {
    assert (JourneyRoot + a)[|JourneyRoot|..] == a;
    assert (JourneyRoot + b)[|JourneyRoot|..] == b;
  }
}
