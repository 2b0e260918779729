/**
 * The course logo: the initials of the first two words of the course
 * title, where words are what `explode( ' ', $title )` yields (so two
 * adjacent spaces produce an empty word).
 */
module Branding {

  /** Joins parts with single spaces (`implode( ' ', $parts )`). */
  function Implode(parts: seq<string>): string
    requires |parts| >= 1
  {
    if |parts| == 1 then parts[0] else parts[0] + " " + Implode(parts[1..])
  }

  /** `explode( ' ', $s )`: the pieces between single spaces, at least one. */
  function Explode(s: string): (parts: seq<string>)
    ensures |parts| >= 1
    ensures forall i :: 0 <= i < |parts| ==> ' ' !in parts[i]
    ensures Implode(parts) == s
  {
    if s == [] then [""]
    else
      var rest := Explode(s[1..]);
      if s[0] == ' ' then
        assert Implode([""] + rest) == "" + " " + Implode(rest) by {
          assert ([""] + rest)[1..] == rest;
        }
        [""] + rest
      else
        var parts := [[s[0]] + rest[0]] + rest[1..];
        assert parts[1..] == rest[1..];
        assert forall i :: 1 <= i < |parts| ==> parts[i] == rest[i];
        assert |rest| > 1 ==> Implode(rest) == rest[0] + " " + Implode(rest[1..]);
        parts
  }

  /** Position of the first space, or the length when there is none. */
  function FirstSpace(s: string): (i: nat)
    ensures i <= |s|
    ensures i < |s| ==> s[i] == ' '
    ensures forall j :: 0 <= j < i ==> s[j] != ' '
  {
    if s == [] || s[0] == ' ' then 0 else 1 + FirstSpace(s[1..])
  }

  /** Joining space-free parts with single spaces and splitting again gives the parts back. */
  lemma {:induction false} ExplodeImplode(parts: seq<string>)
    requires |parts| >= 1
    requires forall i :: 0 <= i < |parts| ==> ' ' !in parts[i]
    ensures Explode(Implode(parts)) == parts
    decreases |parts|, |parts[0]|
  {
    if parts[0] == [] {
      if |parts| > 1 {
        assert Implode(parts) == " " + Implode(parts[1..]);
        ExplodeImplode(parts[1..]);
        assert Implode(parts)[1..] == Implode(parts[1..]);
      }
    } else {
      var c := parts[0][0];
      var shorter := [parts[0][1..]] + parts[1..];
      assert shorter[1..] == parts[1..];
      assert forall i :: 1 <= i < |shorter| ==> shorter[i] == parts[i];
      assert ' ' !in shorter[0] by {
        assert forall x :: x in parts[0][1..] ==> x in parts[0];
      }
      ExplodeImplode(shorter);
      assert Implode(parts) == [c] + Implode(shorter);
      assert Implode(parts)[1..] == Implode(shorter);
      assert [parts[0][1..]][0] == parts[0][1..];
      assert [c] + parts[0][1..] == parts[0];
    }
  }

  /** The first piece is the text before the first space, and the rest is the split of what follows it. */
  lemma {:induction false} ExplodeHead(s: string)
    ensures Explode(s)[0] == s[..FirstSpace(s)]
    ensures FirstSpace(s) < |s| ==> Explode(s)[1..] == Explode(s[FirstSpace(s) + 1..])
    ensures FirstSpace(s) == |s| ==> |Explode(s)| == 1
  {
    if s != [] && s[0] != ' ' {
      ExplodeHead(s[1..]);
      assert s[1..][..FirstSpace(s[1..])] == s[1..FirstSpace(s)];
      assert [s[0]] + s[1..FirstSpace(s)] == s[..FirstSpace(s)];
      if FirstSpace(s) < |s| {
        assert s[1..][FirstSpace(s[1..]) + 1..] == s[FirstSpace(s) + 1..];
      }
    } else if s != [] {
      assert ([""] + Explode(s[1..]))[1..] == Explode(s[1..]);
    }
  }

  /** `substr( $word, 0, 1 )`. */
  function FirstChar(w: string): (r: string)
    ensures |r| <= 1 && (r == [] <==> w == [])
    ensures w != [] ==> r == [w[0]]
  {
    if w == [] then [] else [w[0]]
  }

  /** The logo text: first character of the first word and of the second word, if there is one. */
  function CourseInitials(title: string): (r: string)
    ensures |r| <= 2
  {
    var words := Explode(title);
    FirstChar(words[0]) + (if |words| > 1 then FirstChar(words[1]) else "")
  }

  /**
   * The initials read off the title directly: its first character unless
   * it is a space, and the character after the first space unless that is
   * missing or a space.
   */
  function InitialsDirect(title: string): string
  {
    var i := FirstSpace(title);
    (if title != [] && title[0] != ' ' then [title[0]] else [])
    + (if i + 1 < |title| && title[i + 1] != ' ' then [title[i + 1]] else [])
  }

  /** The first piece of a split starts with the string's first character unless that is a space. */
  lemma FirstWordInitial(s: string)
    ensures FirstChar(Explode(s)[0]) == if s != [] && s[0] != ' ' then [s[0]] else []
  {
    ExplodeHead(s);
    if s != [] && s[0] != ' ' {
      assert FirstSpace(s) > 0;
      assert s[..FirstSpace(s)][0] == s[0];
    }
  }

  /** The initials computed through `explode` are the ones read off the title directly. */
  lemma InitialsAgree(title: string)
    ensures CourseInitials(title) == InitialsDirect(title)
  {
    var i := FirstSpace(title);
    ExplodeHead(title);
    FirstWordInitial(title);
    if i < |title| {
      var tail := title[i + 1..];
      FirstWordInitial(tail);
      assert Explode(title)[1] == Explode(tail)[0];
      assert tail != [] ==> tail[0] == title[i + 1];
    }
  }
}
