/**
 * The login page: a single question ("which class is Beibei in?") that lets
 * the visitor in when the answer, with surrounding white space removed, is
 * exactly "12". A wrong answer raises the error message and shakes the form.
 */
module LoginPage {

  /**
   * The characters JavaScript's String.prototype.trim removes: the white
   * space characters (tab, vertical tab, form feed, space, no-break space,
   * the byte order mark and the space separators of Unicode category Zs)
   * and the line terminators (line feed, carriage return, line and
   * paragraph separator).
   */
  predicate IsSpace(c: char)
  {
    || c == '\U{0009}' || c == '\U{000A}' || c == '\U{000B}' || c == '\U{000C}' || c == '\U{000D}'
    || c == '\U{0020}' || c == '\U{00A0}' || c == '\U{1680}'
    || ('\U{2000}' <= c <= '\U{200A}')
    || c == '\U{2028}' || c == '\U{2029}' || c == '\U{202F}' || c == '\U{205F}'
    || c == '\U{3000}' || c == '\U{FEFF}'
  }

  ghost predicate AllSpaces(s: string)
  {
    forall i :: 0 <= i < |s| ==> IsSpace(s[i])
  }

  /** How many white space characters the string starts with. */
  function LeadingSpaces(s: string): (n: nat)
    ensures n <= |s|
    ensures forall i :: 0 <= i < n ==> IsSpace(s[i])
    ensures n < |s| ==> !IsSpace(s[n])
    decreases |s|
  {
    if |s| > 0 && IsSpace(s[0]) then
      var n := LeadingSpaces(s[1..]);
      assert forall i :: 1 <= i < n + 1 ==> s[i] == s[1..][i - 1];
      n + 1
    else 0
  }

  /** How many white space characters the string ends with. */
  function TrailingSpaces(s: string): (n: nat)
    ensures n <= |s|
    ensures forall i :: |s| - n <= i < |s| ==> IsSpace(s[i])
    ensures n < |s| ==> !IsSpace(s[|s| - n - 1])
    decreases |s|
  {
    if |s| > 0 && IsSpace(s[|s| - 1]) then
      var n := TrailingSpaces(s[..|s| - 1]);
      assert forall i :: |s| - 1 - n <= i < |s| - 1 ==> s[i] == s[..|s| - 1][i];
      n + 1
    else 0
  }

  /** Drops the leading white space. */
  function TrimStart(s: string): string
  {
    s[LeadingSpaces(s)..]
  }

  /** Drops the trailing white space. */
  function TrimEnd(s: string): string
  {
    s[..|s| - TrailingSpaces(s)]
  }

  /** Removes the white space at both ends, as String.prototype.trim does. */
  function Trim(s: string): (r: string)
    ensures |r| <= |s|
    ensures r == [] || (!IsSpace(r[0]) && !IsSpace(r[|r| - 1]))
  {
    TrimEnd(TrimStart(s))
  }

  /** The test the form applies on submit. */
  predicate Accepts(answer: string)
    ensures Accepts(answer) ==> |answer| >= 2
  {
    Trim(answer) == "12"
  }

  /** Leading white space never survives trimming. */
  lemma {:induction false} TrimStartSkipsSpaces(p: string, w: string)
    requires AllSpaces(p)
    ensures TrimStart(p + w) == TrimStart(w)
    decreases |p|
  {
    if |p| > 0 {
      assert (p + w)[1..] == p[1..] + w;
      TrimStartSkipsSpaces(p[1..], w);
    } else {
      assert p + w == w;
    }
  }

  /** Trailing white space never survives trimming. */
  lemma {:induction false} TrimEndSkipsSpaces(w: string, q: string)
    requires AllSpaces(q)
    ensures TrimEnd(w + q) == TrimEnd(w)
    decreases |q|
  {
    if |q| > 0 {
      assert (w + q)[..|w + q| - 1] == w + q[..|q| - 1];
      TrimEndSkipsSpaces(w, q[..|q| - 1]);
    } else {
      assert w + q == w;
    }
  }

  /** A string that starts with a non-space has nothing to trim at its start. */
  lemma TrimStartAtNonSpace(s: string)
    requires |s| > 0 && !IsSpace(s[0])
    ensures TrimStart(s) == s
  {
  }

  /** A string that ends with a non-space has nothing to trim at its end. */
  lemma TrimEndAtNonSpace(s: string)
    requires |s| > 0 && !IsSpace(s[|s| - 1])
    ensures TrimEnd(s) == s
  {
  }

  /** "12" padded with white space on either side is accepted. */
  lemma AcceptsPadded(p: string, q: string)
    requires AllSpaces(p) && AllSpaces(q)
    ensures Accepts(p + "12" + q)
  {
    var w := "12" + q;
    assert p + "12" + q == p + w;
    TrimStartSkipsSpaces(p, w);
    assert w[0] == '1';
    TrimStartAtNonSpace(w);
    TrimEndSkipsSpaces("12", q);
    TrimEndAtNonSpace("12");
  }

  /** An accepted answer is "12" with nothing but white space around it. */
  lemma AcceptedIsPadded(answer: string) returns (p: string, q: string)
    requires Accepts(answer)
    ensures AllSpaces(p) && AllSpaces(q)
    ensures answer == p + "12" + q
  {
    var s := TrimStart(answer);
    p := answer[..|answer| - |s|];
    q := s[2..];
    assert answer == p + s;
  }

  /** The answer is accepted exactly when it is "12" surrounded by white space only. */
  lemma AcceptsIff(answer: string)
    ensures Accepts(answer) <==>
      exists p, q :: AllSpaces(p) && AllSpaces(q) && answer == p + "12" + q
  {
    if Accepts(answer) {
      var p, q := AcceptedIsPadded(answer);
    }
    forall p, q | AllSpaces(p) && AllSpaces(q) && answer == p + "12" + q
      ensures Accepts(answer)
    {
      AcceptsPadded(p, q);
    }
  }

  /** The bare answer is accepted. */
  lemma BareAnswerAccepted()
    ensures Accepts("12")
  {
    assert LeadingSpaces("12") == 0 && TrailingSpaces("12") == 0;
  }

  /** Spaces around the answer are forgiven. */
  lemma SpacePaddedAnswerAccepted()
    ensures Accepts(" 12 ")
  {
    assert LeadingSpaces(" 12 ") == 1;
    assert TrimStart(" 12 ") == "12 ";
    assert TrailingSpaces("12 ") == 1;
  }

  /** So are a tab before it and a line break after it. */
  lemma TabAndNewlinePaddedAnswerAccepted()
    ensures Accepts("\t12\n")
  {
    assert LeadingSpaces("\t12\n") == 1;
    assert TrimStart("\t12\n") == "12\n";
    assert TrailingSpaces("12\n") == 1;
  }

  /** A string with non-spaces at both ends trims to itself. */
  lemma TrimKeepsInner(s: string)
    requires |s| > 0 && !IsSpace(s[0]) && !IsSpace(s[|s| - 1])
    ensures Trim(s) == s
  {
    TrimStartAtNonSpace(s);
    TrimEndAtNonSpace(s);
  }

  /** Trimming twice is trimming once. */
  lemma TrimIdempotent(s: string)
    ensures Trim(Trim(s)) == Trim(s)
  {
    var t := Trim(s);
    if t != [] {
      TrimKeepsInner(t);
    }
  }

  /** A space inside the answer is not forgiven, and neither is any other near miss. */
  lemma NearMissesRejected()
    ensures !Accepts("1 2") && !Accepts("") && !Accepts("012") && !Accepts("12.")
  {
    TrimKeepsInner("1 2");
    TrimKeepsInner("012");
    TrimKeepsInner("12.");
  }

  /**
   * The form's state: the answer typed so far, whether the error message and
   * the shake animation are on, and how many times the page has called its
   * onLogin callback.
   */
  class LoginForm {
    var answer: string
    var error: bool
    var shake: bool
    var loginCalls: nat

    constructor ()
      ensures answer == "" && !error && !shake && loginCalls == 0
    {
      answer := "";
      error := false;
      shake := false;
      loginCalls := 0;
    }

    /** Typing into the input field. */
    method SetAnswer(s: string)
      modifies this
      ensures answer == s
      ensures error == old(error) && shake == old(shake) && loginCalls == old(loginCalls)
    {
      answer := s;
    }

    /**
     * Submitting the form. A correct answer calls onLogin once and leaves the
     * error flags alone; a wrong one turns the error message and the shake on
     * and does not call onLogin.
     */
    method HandleSubmit()
      modifies this
      ensures answer == old(answer)
      ensures Accepts(answer) ==>
        loginCalls == old(loginCalls) + 1 && error == old(error) && shake == old(shake)
      ensures !Accepts(answer) ==>
        loginCalls == old(loginCalls) && error && shake
    {
      if Trim(answer) == "12" {
        loginCalls := loginCalls + 1;
      } else {
        error := true;
        shake := true;
      }
    }
  }

  /** Typing " 12 " into a fresh form and submitting logs in without showing an error. */
  method PaddedAnswerLogsIn() returns (calls: nat, error: bool)
    ensures calls == 1 && !error
  {
    var form := new LoginForm();
    form.SetAnswer(" 12 ");
    SpacePaddedAnswerAccepted();
    form.HandleSubmit();
    calls, error := form.loginCalls, form.error;
  }

  /** Submitting "1 2" shows the error and does not log in. */
  method InteriorSpaceIsRejected() returns (calls: nat, error: bool, shake: bool)
    ensures calls == 0 && error && shake
  {
    var form := new LoginForm();
    form.SetAnswer("1 2");
    NearMissesRejected();
    form.HandleSubmit();
    calls, error, shake := form.loginCalls, form.error, form.shake;
  }
}
