/** The string helpers the services share: strings.TrimSpace and strings.ToLower, on ASCII. */
module Text {

  predicate IsSpace(c: char) {
    c == ' ' || c == '\t' || c == '\n' || c == '\r' || c as int == 11 || c as int == 12
  }

  function TrimLeft(s: string): string {
    if s != [] && IsSpace(s[0]) then TrimLeft(s[1..]) else s
  }

  function TrimRight(s: string): string {
    if s != [] && IsSpace(s[|s| - 1]) then TrimRight(s[..|s| - 1]) else s
  }

  function Trim(s: string): string {
    TrimRight(TrimLeft(s))
  }

  predicate Blank(s: string) { forall i :: 0 <= i < |s| ==> IsSpace(s[i]) }

  /** Trim cuts blanks off both ends and nothing else, until neither end is blank. */
  lemma TrimCuts(s: string) returns (left: string, right: string)
    ensures s == left + Trim(s) + right && Blank(left) && Blank(right)
    ensures Trim(s) != "" ==> !IsSpace(Trim(s)[0]) && !IsSpace(Trim(s)[|Trim(s)| - 1])
  {
    left := LeftCut(s);
    right := RightCut(TrimLeft(s));
  }

  lemma {:induction false} LeftCut(s: string) returns (left: string)
    ensures s == left + TrimLeft(s) && Blank(left) && (TrimLeft(s) != "" ==> !IsSpace(TrimLeft(s)[0]))
  {
    if s != [] && IsSpace(s[0]) {
      left := LeftCut(s[1..]);
      left := [s[0]] + left;
    } else {
      left := "";
    }
  }

  lemma {:induction false} RightCut(s: string) returns (right: string)
    ensures s == TrimRight(s) + right && Blank(right)
    ensures TrimRight(s) != "" ==> !IsSpace(TrimRight(s)[|TrimRight(s)| - 1]) && TrimRight(s)[0] == s[0]
  {
    if s != [] && IsSpace(s[|s| - 1]) {
      right := RightCut(s[..|s| - 1]);
      right := right + [s[|s| - 1]];
    } else {
      right := "";
    }
  }

  lemma {:induction false} TrimRightKeepsHead(s: string)
    requires s != "" && !IsSpace(s[0])
    ensures TrimRight(s) != ""
  {
    if 1 < |s| { TrimRightKeepsHead(s[..|s| - 1]); }
  }

  function LowerChar(c: char): char {
    if 'A' <= c <= 'Z' then (c as int + 32) as char else c
  }

  function Lower(s: string): string {
    seq(|s|, i requires 0 <= i < |s| => LowerChar(s[i]))
  }

  function UpperChar(c: char): char {
    if 'a' <= c <= 'z' then (c as int - 32) as char else c
  }

  function Upper(s: string): string {
    seq(|s|, i requires 0 <= i < |s| => UpperChar(s[i]))
  }

  /** Either case serves to compare two letters without it: case differs by 32, between 'A' to 'Z' and 'a' to 'z'. */
  lemma SameLetter(c: char, d: char)
    ensures UpperChar(c) == UpperChar(d) <==> LowerChar(c) == LowerChar(d)
    ensures LowerChar(c) == LowerChar(d) <==>
            || c == d
            || ('A' <= c <= 'Z' && d as int == c as int + 32)
            || ('A' <= d <= 'Z' && c as int == d as int + 32)
    ensures !('A' <= LowerChar(c) <= 'Z') && !('a' <= UpperChar(c) <= 'z')
  {
  }

  lemma SameUpToCase(s: string, t: string)
    ensures Upper(s) == Upper(t) <==> Lower(s) == Lower(t)
    ensures Lower(s) == Lower(t) <==> |s| == |t| && forall i :: 0 <= i < |s| ==> LowerChar(s[i]) == LowerChar(t[i])
  {
    hide UpperChar, LowerChar;
    if |s| == |t| {
      forall i | 0 <= i < |s|
        ensures UpperChar(s[i]) == UpperChar(t[i]) <==> LowerChar(s[i]) == LowerChar(t[i])
        ensures Upper(s)[i] == UpperChar(s[i]) && Upper(t)[i] == UpperChar(t[i]) && Lower(s)[i] == LowerChar(s[i]) && Lower(t)[i] == LowerChar(t[i])
      {
        SameLetter(s[i], t[i]);
      }
    } else {
      assert |Upper(s)| != |Upper(t)| && |Lower(s)| != |Lower(t)|;
    }
  }

  predicate ColonFree(s: string) { ':' !in s }

  /** A colon-free head is determined by the joined text. */
  lemma {:induction false} SplitAtColon(a: string, x: string, b: string, y: string)
    requires ColonFree(a) && ColonFree(b) && a + ":" + x == b + ":" + y
    ensures a == b && x == y
  {
    var s := a + ":" + x;
    assert s[|a|] == ':' && (forall i :: 0 <= i < |a| ==> s[i] == a[i] && a[i] in a);
    assert s[|b|] == ':' && (forall i :: 0 <= i < |b| ==> s[i] == b[i] && b[i] in b);
    assert s[..|a|] == a && s[|a| + 1..] == x;
    assert (b + ":" + y)[..|b|] == b && (b + ":" + y)[|b| + 1..] == y;
  }

  lemma NormalColonFree(s: string)
    requires ColonFree(s)
    ensures ColonFree(Lower(Trim(s))) && ColonFree(Trim(s))
  {
    var left, right := TrimCuts(s);
    var t := Trim(s);
    assert forall i :: 0 <= i < |t| ==> t[i] == s[|left| + i];
    forall c | c in Lower(t) ensures c != ':' {
      var i :| 0 <= i < |t| && Lower(t)[i] == c;
      assert t[i] in t;
    }
  }
}
