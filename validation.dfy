/**
 * The form validators of the client are chains of early returns: the first
 * check that fails sets its message and the submission stops. A chain is
 * modelled as a list of checks; its verdict is the message of the first
 * failing one. Also here: the two regular expressions the forms use, as
 * string predicates, and the checks the three activity forms share.
 */
module Validation {
  import opened Wrappers
  import opened JsText
  import opened Entities

  /** One `if (bad) { setError(message); return false; }` step. */
  datatype Check = Check(passes: bool, message: string)

  predicate AllPass(checks: seq<Check>) {
    forall k :: 0 <= k < |checks| ==> checks[k].passes
  }

  /** Check `k` is the first that fails. */
  predicate FirstFailingAt(checks: seq<Check>, k: int) {
    0 <= k < |checks| && !checks[k].passes && forall j :: 0 <= j < k ==> checks[j].passes
  }

  /** The message the chain ends with, or None when every check passes. */
  function FirstFailure(checks: seq<Check>): (r: Option<string>)
    ensures r.None? <==> AllPass(checks)
  {
    if checks == [] then None
    else if !checks[0].passes then Some(checks[0].message)
    else
      var r := FirstFailure(checks[1..]);
      assert AllPass(checks[1..]) ==> AllPass(checks) by {
        if AllPass(checks[1..]) {
          forall k | 0 <= k < |checks| ensures checks[k].passes {
            if k > 0 { assert checks[1..][k - 1] == checks[k]; }
          }
        }
      }
      r
  }

  /** Whatever follows it, the first failing check decides the message. */
  lemma {:induction false} FirstFailingDecides(checks: seq<Check>, k: int)
    requires FirstFailingAt(checks, k)
    ensures FirstFailure(checks) == Some(checks[k].message)
  {
    if k > 0 {
      assert checks[0].passes;
      assert FirstFailingAt(checks[1..], k - 1) by {
        forall j | 0 <= j < k - 1 ensures checks[1..][j].passes {
          assert checks[1..][j] == checks[j + 1];
        }
      }
      FirstFailingDecides(checks[1..], k - 1);
    }
  }

  /** A chain that fails fails at a first check, and that check's message is the verdict. */
  lemma {:induction false} FailureHasFirstFailing(checks: seq<Check>)
    requires FirstFailure(checks).Some?
    ensures exists k :: FirstFailingAt(checks, k) && FirstFailure(checks) == Some(checks[k].message)
  {
    if checks[0].passes {
      FailureHasFirstFailing(checks[1..]);
      var k :| FirstFailingAt(checks[1..], k) && FirstFailure(checks[1..]) == Some(checks[1..][k].message);
      assert FirstFailingAt(checks, k + 1) by {
        forall j | 0 <= j < k + 1 ensures checks[j].passes {
          if j > 0 { assert checks[1..][j - 1] == checks[j]; }
        }
      }
    } else {
      assert FirstFailingAt(checks, 0);
    }
  }

  /** A chain extended at its end only adds a verdict when the original passed. */
  lemma {:induction false} FirstFailureExtend(checks: seq<Check>, last: Check)
    ensures FirstFailure(checks + [last]) ==
      if FirstFailure(checks).Some? then FirstFailure(checks)
      else if last.passes then None else Some(last.message)
  {
    var all := checks + [last];
    if FirstFailure(checks).Some? {
      FailureHasFirstFailing(checks);
      var k :| FirstFailingAt(checks, k) && FirstFailure(checks) == Some(checks[k].message);
      assert all[k] == checks[k];
      assert FirstFailingAt(all, k);
      FirstFailingDecides(all, k);
    } else if !last.passes {
      assert all[|checks|] == last;
      assert FirstFailingAt(all, |checks|);
      FirstFailingDecides(all, |checks|);
    } else {
      assert AllPass(all) by {
        forall k | 0 <= k < |all| ensures all[k].passes {
          if k < |checks| { assert all[k] == checks[k]; }
        }
      }
    }
  }

  // ----- /^[^\s@]+@[^\s@]+\.[^\s@]+$/ -----

  /** `[^\s@]` */
  predicate EmailChar(c: char) {
    !IsSpace(c) && c != '@'
  }

  predicate EmailChars(s: string) {
    forall k :: 0 <= k < |s| ==> EmailChar(s[k])
  }

  lemma EmailCharsSlice(s: string, a: int, b: int)
    requires 0 <= a <= b <= |s|
    requires forall k :: a <= k < b ==> EmailChar(s[k])
    ensures EmailChars(s[a..b])
  {
    forall k | 0 <= k < b - a ensures EmailChar(s[a..b][k]) {
      assert s[a..b][k] == s[a + k];
    }
  }

  /** The regular expression matches with its `@` at `i` and its `\.` at `j`. */
  ghost predicate EmailMatchAt(s: string, i: int, j: int) {
    0 < i && i + 1 < j && j + 1 < |s|
    && s[i] == '@' && s[j] == '.'
    && EmailChars(s[..i]) && EmailChars(s[i + 1..j]) && EmailChars(s[j + 1..])
  }

  /** `emailRegex.test(s)`, the pattern read as it is written. */
  ghost predicate EmailRegex(s: string) {
    exists i, j :: EmailMatchAt(s, i, j)
  }

  /** The position of the first `c` in `s`. */
  function IndexOf(s: string, c: char): (i: nat)
    requires c in s
    ensures i < |s| && s[i] == c && c !in s[..i]
  {
    if s[0] == c then 0
    else
      var i := IndexOf(s[1..], c);
      assert s[..i + 1] == [s[0]] + s[1..][..i];
      i + 1
  }

  /** The email test in plain words: no white space, exactly one `@` with
      something before it, and after it a domain holding a `.` that has text
      on both sides. */
  predicate EmailValid(s: string) {
    (forall k :: 0 <= k < |s| ==> !IsSpace(s[k]))
    && '@' in s
    && var i := IndexOf(s, '@');
       var domain := s[i + 1..];
       0 < i && '@' !in domain && |domain| >= 3 && '.' in domain[1..|domain| - 1]
  }

  /** What the plain-words test accepts, the pattern matches. */
  lemma EmailValidToRegex(s: string)
    requires EmailValid(s)
    ensures EmailRegex(s)
  {
    var i := IndexOf(s, '@');
    var domain := s[i + 1..];
    var inner := domain[1..|domain| - 1];
    var j0 :| 0 <= j0 < |inner| && inner[j0] == '.';
    var j := i + 2 + j0;
    assert s[j] == inner[j0];
    forall k | 0 <= k < |s| && k != i ensures EmailChar(s[k]) {
      if k < i {
        assert s[k] == s[..i][k];
      } else {
        assert s[k] == domain[k - i - 1];
      }
    }
    EmailCharsSlice(s, 0, i);
    EmailCharsSlice(s, i + 1, j);
    EmailCharsSlice(s, j + 1, |s|);
    assert EmailMatchAt(s, i, j);
  }

  /** What the pattern matches, the plain-words test accepts. */
  lemma EmailRegexToValid(s: string)
    requires EmailRegex(s)
    ensures EmailValid(s)
  {
    var i, j :| EmailMatchAt(s, i, j);
    forall k | 0 <= k < |s| && k != i ensures EmailChar(s[k]) {
      if k < i {
        assert s[k] == s[..i][k];
      } else if i < k < j {
        assert s[k] == s[i + 1..j][k - i - 1];
      } else if k > j {
        assert s[k] == s[j + 1..][k - j - 1];
      }
    }
    assert '@' !in s[..i];
    assert IndexOf(s, '@') == i;
    var domain := s[i + 1..];
    assert domain[1..|domain| - 1][j - i - 2] == '.';
    assert '@' !in domain by {
      forall k | 0 <= k < |domain| ensures domain[k] != '@' {
        assert domain[k] == s[i + 1 + k];
      }
    }
  }

  /** The plain-words test and the regular expression accept the same strings. */
  lemma EmailValidIffRegex(s: string)
    ensures EmailValid(s) <==> EmailRegex(s)
  {
    if EmailValid(s) { EmailValidToRegex(s); }
    if EmailRegex(s) { EmailRegexToValid(s); }
  }

  // ----- /^(http|https):\/\/[^ "]+$/ -----

  /** `[^ "]` */
  predicate UrlChar(c: char) {
    c != ' ' && c != '"'
  }

  /** `scheme` followed by `://` and at least one character that is neither
      a space nor a double quote, up to the end. */
  predicate UrlWithScheme(s: string, scheme: string) {
    var head := scheme + "://";
    StartsWith(s, head) && |s| > |head|
    && forall k :: |head| <= k < |s| ==> UrlChar(s[k])
  }

  /** `image.match(/^(http|https):\/\/[^ "]+$/)` */
  predicate ImageUrl(s: string) {
    UrlWithScheme(s, "http") || UrlWithScheme(s, "https")
  }

  /** The address put in place of an empty image. */
  const DefaultImage: string := "https://" + DefaultImageHost + DefaultImagePath
  const DefaultImageHost: string := "home.cdn.papaya.services"
  const DefaultImagePath: string := "/tu_thien_la_gi_5131bbcfa1.jpg"

  /** `https://` followed by a non-empty run of characters that are
      neither spaces nor quotes matches. */
  lemma HttpsUrl(rest: string)
    requires rest != [] && ' ' !in rest && '"' !in rest
    ensures ImageUrl("https://" + rest)
  {
    var s := "https://" + rest;
    assert s[..8] == "https://";
    forall k | 8 <= k < |s| ensures UrlChar(s[k]) {
      assert s[k] == rest[k - 8];
    }
  }

  /** The default image address passes the image check itself. */
  lemma DefaultImageIsUrl()
    ensures ImageUrl(DefaultImage)
  {
    var rest := DefaultImageHost + DefaultImagePath;
    assert ' ' !in rest && '"' !in rest;
    assert DefaultImage == "https://" + rest;
    HttpsUrl(rest);
  }

  /** A matching address starts with `http`, and holds no space or quote after `://`. */
  lemma ImageUrlShape(s: string)
    requires ImageUrl(s)
    ensures StartsWith(s, "http") && |s| >= 8
    ensures ' ' !in s && '"' !in s
  {
    assert s[..4] == "http" by {
      if UrlWithScheme(s, "http") {
        assert s[..7] == "http://";
        assert s[..4] == s[..7][..4];
      } else {
        assert s[..8] == "https://";
        assert s[..4] == s[..8][..4];
      }
    }
    forall k | 0 <= k < |s| ensures s[k] != ' ' && s[k] != '"' {
      if UrlWithScheme(s, "http") {
        if k < 7 { assert s[k] == s[..7][k]; }
      } else {
        if k < 8 { assert s[k] == s[..8][k]; }
      }
    }
  }

  /** A valid address holds an `@`, so it is never blank: on a form that
      checks both, "required" speaks only for the blank address. */
  lemma ValidEmailNotBlank(s: string)
    requires EmailValid(s)
    ensures !IsBlank(s)
  {
    var i := IndexOf(s, '@');
    assert !IsSpace(s[i]);
  }

  const EmailRequired := "Email is required"
  const EmailInvalid := "Please enter a valid email address"

  // ----- the activity forms -----

  const NameRequired := "Name is required"
  const DescriptionRequired := "Description is required"
  const GoalNotPositive := "Goal amount must be a positive number"
  const EndDateRequired := "End date is required"
  const EndDateInPast := "End date cannot be in the past"
  const InvalidImageUrl := "Please enter a valid image URL"

  /** The checks every activity form makes, in order: name, description,
      goal, end date given, end date not before `now` (`new Date()`). */
  function ActivityChecks(name: string, description: string, goalText: string, goal: JsNumber,
                          endText: string, end: JsDate, now: int): (cs: seq<Check>)
    ensures |cs| == 5
  {
    [ Check(!IsBlank(name), NameRequired),
      Check(!IsBlank(description), DescriptionRequired),
      Check(PositiveNumber(goalText, goal), GoalNotPositive),
      Check(endText != "", EndDateRequired),
      Check(!DateBefore(end, Time(now)), EndDateInPast) ]
  }

  /** The optional image: empty passes, anything else must be an http(s) address. */
  function ImageCheck(image: string): Check {
    Check(image == "" || ImageUrl(image), InvalidImageUrl)
  }

  /** What the activity checks accept, stated all at once. */
  predicate ActivityFieldsValid(name: string, description: string, goalText: string, goal: JsNumber,
                                endText: string, end: JsDate, now: int) {
    !IsBlank(name) && !IsBlank(description) && PositiveNumber(goalText, goal)
    && endText != "" && !DateBefore(end, Time(now))
  }

  /** The verdict of the list of checks is the cascade of early returns the
      forms are written as, and it accepts exactly the forms that meet every
      condition. */
  lemma ActivityChecksVerdict(name: string, description: string, goalText: string, goal: JsNumber,
                              endText: string, end: JsDate, now: int)
    ensures FirstFailure(ActivityChecks(name, description, goalText, goal, endText, end, now)) ==
      if IsBlank(name) then Some(NameRequired)
      else if IsBlank(description) then Some(DescriptionRequired)
      else if !PositiveNumber(goalText, goal) then Some(GoalNotPositive)
      else if endText == "" then Some(EndDateRequired)
      else if DateBefore(end, Time(now)) then Some(EndDateInPast)
      else None
    ensures FirstFailure(ActivityChecks(name, description, goalText, goal, endText, end, now)).None?
            <==> ActivityFieldsValid(name, description, goalText, goal, endText, end, now)
  {
    var cs := ActivityChecks(name, description, goalText, goal, endText, end, now);
    if IsBlank(name) {
      assert FirstFailingAt(cs, 0);
      FirstFailingDecides(cs, 0);
    } else if IsBlank(description) {
      assert FirstFailingAt(cs, 1);
      FirstFailingDecides(cs, 1);
    } else if !PositiveNumber(goalText, goal) {
      assert FirstFailingAt(cs, 2);
      FirstFailingDecides(cs, 2);
    } else if endText == "" {
      assert FirstFailingAt(cs, 3);
      FirstFailingDecides(cs, 3);
    } else if DateBefore(end, Time(now)) {
      assert FirstFailingAt(cs, 4);
      FirstFailingDecides(cs, 4);
    }
  }

  /** The chain of the forms that also take an image: the activity checks,
      then the image check. */
  function ActivityImageChecks(name: string, description: string, goalText: string, goal: JsNumber,
                               endText: string, end: JsDate, now: int, image: string): (cs: seq<Check>)
    ensures |cs| == 6 && cs[5] == ImageCheck(image)
  {
    ActivityChecks(name, description, goalText, goal, endText, end, now) + [ImageCheck(image)]
  }

  /** The image check only speaks when every activity check passed; a form
      refused without an image check is refused with the same message. */
  lemma ActivityImageVerdict(name: string, description: string, goalText: string, goal: JsNumber,
                             endText: string, end: JsDate, now: int, image: string)
    ensures FirstFailure(ActivityImageChecks(name, description, goalText, goal, endText, end, now, image)) ==
      var r := FirstFailure(ActivityChecks(name, description, goalText, goal, endText, end, now));
      if r.Some? then r
      else if image == "" || ImageUrl(image) then None
      else Some(InvalidImageUrl)
  {
    FirstFailureExtend(ActivityChecks(name, description, goalText, goal, endText, end, now), ImageCheck(image));
  }

  /** An accepted image field leaves a usable address once the default
      replaces the empty one. */
  lemma AcceptedImageIsUrl(image: string)
    requires ImageCheck(image).passes
    ensures ImageUrl(if image == "" then DefaultImage else image)
  {
    DefaultImageIsUrl();
  }
}
