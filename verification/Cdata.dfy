/**
 CDATA sections of the report (section 2.7 of XML 1.0): text is wrapped in one section,
 an embedded section end being split over two. The section start is a parameter of the
 inner functions, whose proofs do not depend on how it is spelled.
 */
module Cdata {
  import opened Prelude

  const OPEN := "<![CDATA["
  const CLOSE := "]]>"

  predicate ClosesAt(t: string, k: nat) {
    k + 3 <= |t| && t[k] == ']' && t[k + 1] == ']' && t[k + 2] == '>'
  }

  /** What stands for an embedded section end: "]]" ends one section, ">" begins the next. */
  function Split(open: string): string {
    "]]" + CLOSE + open + ">"
  }

  /** Python's s.replace(CLOSE, Split(open)). */
  function Escaped(open: string, s: string): string {
    if s == "" then ""
    else if ClosesAt(s, 0) then Split(open) + Escaped(open, s[3..])
    else [s[0]] + Escaped(open, s[1..])
  }

  function Wrap(s: string): string {
    OPEN + Escaped(OPEN, s) + CLOSE
  }

  // ----- reading -----

  /** Where the first section end begins. */
  function FirstClose(t: string): (i: Option<nat>)
    ensures i.Some? ==> ClosesAt(t, i.value) && forall k: nat :: k < i.value ==> !ClosesAt(t, k)
    ensures i.None? ==> forall k: nat :: !ClosesAt(t, k)
  {
    if t == "" then None
    else if ClosesAt(t, 0) then Some(0)
    else
      assert forall k: nat :: k > 0 ==> (ClosesAt(t, k) <==> ClosesAt(t[1..], k - 1));
      match FirstClose(t[1..])
      case None => None
      case Some(i) => Some(i + 1)
  }

  /** The content read from inside a section to the end of the input, over any
      number of consecutive sections; None for anything else. */
  function ReadFrom(open: string, t: string): Option<string>
    decreases |t|
  {
    match FirstClose(t)
    case None => None
    case Some(i) =>
      var rest := t[i + 3..];
      if rest == "" then Some(t[..i])
      else if open <= rest then
        match ReadFrom(open, rest[|open|..])
        case None => None
        case Some(more) => Some(t[..i] + more)
      else None
  }

  function Read(t: string): Option<string> {
    if OPEN <= t then ReadFrom(OPEN, t[|OPEN|..]) else None
  }

  // ----- round trip -----

  lemma FirstCloseIs(t: string, i: nat)
    requires ClosesAt(t, i) && forall k: nat :: k < i ==> !ClosesAt(t, k)
    ensures FirstClose(t) == Some(i)
  {
  }

  /** A character that does not complete a section end is content. */
  lemma ReadPrepends(open: string, c: char, t: string)
    requires !ClosesAt([c] + t, 0) && ReadFrom(open, t).Some?
    ensures ReadFrom(open, [c] + t) == Some([c] + ReadFrom(open, t).value)
  {
    var u := [c] + t;
    assert u[1..] == t;
    var i := FirstClose(t).value;
    assert FirstClose(u) == Some(i + 1);
    assert u[..i + 1] == [c] + t[..i] && u[i + 4..] == t[i + 3..];
    if t[i + 3..] != "" {
      var more := ReadFrom(open, t[i + 3..][|open|..]).value;
      Assoc([c], t[..i], more);
    }
  }

  /** Escaping does not bring a section end closer to the front. */
  lemma EscapedStart(open: string, c: char, s: string)
    requires !ClosesAt([c] + s, 0)
    ensures !ClosesAt([c] + (Escaped(open, s) + CLOSE), 0)
  {
    var t := Escaped(open, s) + CLOSE;
    if s == "" {
      assert t == CLOSE;
    } else if ClosesAt(s, 0) {
      assert t[0] == ']' && t[1] == ']';
    } else {
      assert t[0] == s[0];
      if |s| == 1 {
        assert Escaped(open, s) == s;
        assert t[1] == ']';
      } else {
        assert t[1] == Escaped(open, s[1..])[0];
        assert Escaped(open, s[1..])[0] == s[1];
      }
    }
  }

  /** A section followed by another. */
  lemma ReadSection(open: string, t: string, i: nat, more: string)
    requires FirstClose(t) == Some(i) && t[i + 3..] == open + more && ReadFrom(open, more).Some?
    ensures ReadFrom(open, t) == Some(t[..i] + ReadFrom(open, more).value)
  {
    var rest := t[i + 3..];
    assert more != "";
    assert open <= rest && rest[|open|..] == more;
  }

  lemma SplitShape(t: string, tail: string)
    requires t == "]]" + CLOSE + tail
    ensures FirstClose(t) == Some(2) && t[..2] == "]]" && t[5..] == tail
  {
    assert t[0] == ']' && t[1] == ']' && t[2] == ']' && t[3] == ']' && t[4] == '>';
    FirstCloseIs(t, 2);
  }

  lemma ReadSplit(open: string, more: string)
    requires ReadFrom(open, more).Some?
    ensures ReadFrom(open, "]]" + CLOSE + open + more) == Some("]]" + ReadFrom(open, more).value)
  {
    var t := "]]" + CLOSE + open + more;
    Assoc("]]" + CLOSE, open, more);
    SplitShape(t, open + more);
    ReadSection(open, t, 2, more);
  }

  lemma EscapedSplit(open: string, s: string)
    requires ClosesAt(s, 0)
    ensures Escaped(open, s) + CLOSE == "]]" + CLOSE + open + (['>'] + (Escaped(open, s[3..]) + CLOSE))
    ensures s == "]]" + (['>'] + s[3..])
  {
  }

  lemma {:induction false} ReadEscaped(open: string, s: string)
    ensures ReadFrom(open, Escaped(open, s) + CLOSE) == Some(s)
    decreases |s|
  {
    if s == "" {
      assert Escaped(open, s) + CLOSE == CLOSE;
      FirstCloseIs(CLOSE, 0);
    } else if ClosesAt(s, 0) {
      var rest := Escaped(open, s[3..]) + CLOSE;
      ReadEscaped(open, s[3..]);
      ReadPrepends(open, '>', rest);
      ReadSplit(open, ['>'] + rest);
      EscapedSplit(open, s);
    } else {
      var rest := Escaped(open, s[1..]) + CLOSE;
      ReadEscaped(open, s[1..]);
      assert [s[0]] + s[1..] == s;
      Assoc([s[0]], Escaped(open, s[1..]), CLOSE);
      EscapedStart(open, s[0], s[1..]);
      ReadPrepends(open, s[0], rest);
    }
  }

  /** Whatever the text, reading what was written as consecutive sections, each closed
      at its first end, consumes it all and gives the text back. */
  lemma WrapRoundTrip(s: string)
    ensures Read(Wrap(s)) == Some(s)
  {
    ReadEscaped(OPEN, s);
    assert Wrap(s)[|OPEN|..] == Escaped(OPEN, s) + CLOSE;
  }

  /** A text is written as it stands exactly when it holds no section end. */
  lemma {:induction false} PlainIff(open: string, s: string)
    ensures Escaped(open, s) == s <==> FirstClose(s).None?
    ensures |Escaped(open, s)| >= |s|
    decreases |s|
  {
    if s != "" {
      if ClosesAt(s, 0) {
        PlainIff(open, s[3..]);
      } else {
        PlainIff(open, s[1..]);
        assert s == [s[0]] + s[1..];
        assert Escaped(open, s)[1..] == Escaped(open, s[1..]);
      }
    }
  }
}
