/** The wire format of messages: eight fields, each followed by a separator. */
module ServerMessage {
  import opened Wrappers

  const SEPARATOR: char := '`'
  const NR_OF_SEPARATIONS: nat := 8

  datatype Fields = Fields(
    threadNumber: string,
    action: string,
    fd: string,
    id: string,
    name: string,
    colorId: string,
    initDone: string,
    msgContent: string
  )

  function AsList(m: Fields): (fs: seq<string>)
    ensures |fs| == NR_OF_SEPARATIONS
  {
    [m.threadNumber, m.action, m.fd, m.id, m.name, m.colorId, m.initDone, m.msgContent]
  }

  function OfList(fs: seq<string>): Fields
    requires |fs| == NR_OF_SEPARATIONS
  {
    Fields(fs[0], fs[1], fs[2], fs[3], fs[4], fs[5], fs[6], fs[7])
  }

  // ---------------------------------------------------------------- printing and splitting

  /** Every string followed by a separator, one after the other. */
  function Join(fs: seq<string>): string {
    if fs == [] then "" else fs[0] + [SEPARATOR] + Join(fs[1..])
  }

  function Separators(s: string): nat {
    if s == "" then 0 else (if s[0] == SEPARATOR then 1 else 0) + Separators(s[1..])
  }

  /** `getline`: the text before the first separator, and what is left after it. */
  function Line(s: string): string {
    if s == "" || s[0] == SEPARATOR then "" else [s[0]] + Line(s[1..])
  }

  function AfterLine(s: string): string {
    if s == "" then "" else if s[0] == SEPARATOR then s[1..] else AfterLine(s[1..])
  }

  function Lines(s: string, n: nat): (fs: seq<string>)
    ensures |fs| == n
    decreases n
  {
    if n == 0 then [] else [Line(s)] + Lines(AfterLine(s), n - 1)
  }

  function Rest(s: string, n: nat): string
    decreases n
  {
    if n == 0 then s else Rest(AfterLine(s), n - 1)
  }

  function Print(m: Fields): string { Join(AsList(m)) }

  function Parse(s: string): Option<Fields> {
    if Separators(s) == NR_OF_SEPARATIONS then Some(OfList(Lines(s, NR_OF_SEPARATIONS))) else None
  }

  predicate Clean(m: Fields) {
    forall i | 0 <= i < NR_OF_SEPARATIONS :: Separators(AsList(m)[i]) == 0
  }

  lemma {:induction false} SeparatorsInSum(a: string, b: string)
    ensures Separators(a + b) == Separators(a) + Separators(b)
  {
    if a == "" {
      assert a + b == b;
    } else {
      assert (a + b)[1..] == a[1..] + b;
      SeparatorsInSum(a[1..], b);
    }
  }

  lemma {:induction false} NoSeparator(s: string)
    ensures Separators(s) == 0 <==> SEPARATOR !in s
  {
    if s != "" { NoSeparator(s[1..]); }
  }

  /** A clean field is read back, and reading goes on right after its separator. */
  lemma {:induction false} LineOfField(f: string, rest: string)
    requires Separators(f) == 0
    ensures Line(f + [SEPARATOR] + rest) == f && AfterLine(f + [SEPARATOR] + rest) == rest
  {
    var s := f + [SEPARATOR] + rest;
    if f == "" {
      assert s[1..] == rest;
    } else {
      assert s[1..] == f[1..] + [SEPARATOR] + rest;
      LineOfField(f[1..], rest);
    }
  }

  lemma {:induction false} LineTakesOneSeparator(s: string)
    requires Separators(s) > 0
    ensures Separators(Line(s)) == 0 && Separators(AfterLine(s)) == Separators(s) - 1
    ensures s == Line(s) + [SEPARATOR] + AfterLine(s)
  {
    if s[0] != SEPARATOR { LineTakesOneSeparator(s[1..]); }
  }

  lemma {:induction false} SeparatorsOfJoin(fs: seq<string>)
    ensures Separators(Join(fs)) >= |fs|
    ensures Separators(Join(fs)) == |fs| <==> forall i | 0 <= i < |fs| :: Separators(fs[i]) == 0
  {
    if fs != [] {
      SeparatorsInSum(fs[0] + [SEPARATOR], Join(fs[1..]));
      SeparatorsInSum(fs[0], [SEPARATOR]);
      SeparatorsOfJoin(fs[1..]);
      assert forall i | 0 < i < |fs| :: fs[i] == fs[1..][i - 1];
    }
  }

  lemma {:induction false} LinesOfJoin(fs: seq<string>)
    requires forall i | 0 <= i < |fs| :: Separators(fs[i]) == 0
    ensures Lines(Join(fs), |fs|) == fs && Rest(Join(fs), |fs|) == ""
  {
    if fs != [] {
      LineOfField(fs[0], Join(fs[1..]));
      LinesOfJoin(fs[1..]);
    }
  }

  lemma {:induction false} JoinOfLines(s: string, n: nat)
    requires Separators(s) >= n
    ensures s == Join(Lines(s, n)) + Rest(s, n)
    ensures Separators(Rest(s, n)) == Separators(s) - n
    ensures forall i | 0 <= i < n :: Separators(Lines(s, n)[i]) == 0
    decreases n
  {
    if n > 0 {
      LineTakesOneSeparator(s);
      JoinOfLines(AfterLine(s), n - 1);
      var fs := Lines(s, n);
      assert fs[1..] == Lines(AfterLine(s), n - 1);
      assert Join(fs) + Rest(s, n) == Line(s) + [SEPARATOR] + (Join(fs[1..]) + Rest(s, n));
    }
  }

  // ---------------------------------------------------------------- exactness

  /** A printed message is parsed back exactly when no field contains the separator; otherwise it is
      rejected. It is never parsed into something else. */
  lemma PrintThenParse(m: Fields)
    ensures Parse(Print(m)) == if Clean(m) then Some(m) else None
  {
    SeparatorsOfJoin(AsList(m));
    if Clean(m) { LinesOfJoin(AsList(m)); }
  }

  /** An accepted string is the print of what was parsed from it, followed by text without a separator that
      the parse ignores. */
  lemma ParseThenPrint(s: string)
    requires Parse(s).Some?
    ensures var m := Parse(s).value;
            Clean(m) && Print(m) <= s && SEPARATOR !in s[|Print(m)|..]
  {
    JoinOfLines(s, NR_OF_SEPARATIONS);
    var m := Parse(s).value;
    assert AsList(m) == Lines(s, NR_OF_SEPARATIONS);
    assert s[|Print(m)|..] == Rest(s, NR_OF_SEPARATIONS);
    NoSeparator(Rest(s, NR_OF_SEPARATIONS));
  }

  // ---------------------------------------------------------------- the class

  lemma {:induction false} JoinSnoc(fs: seq<string>, f: string)
    ensures Join(fs + [f]) == Join(fs) + f + [SEPARATOR]
  {
    if fs == [] {
      assert fs + [f] == [f] && [f][1..] == [];
      assert f + [SEPARATOR] + "" == "" + f + [SEPARATOR];
    } else {
      assert (fs + [f])[1..] == fs[1..] + [f];
      JoinSnoc(fs[1..], f);
      assert fs[0] + [SEPARATOR] + (Join(fs[1..]) + f + [SEPARATOR]) == Join(fs) + f + [SEPARATOR];
    }
  }

  lemma JoinsFieldByField(fs: seq<string>)
    requires |fs| == NR_OF_SEPARATIONS
    ensures Join(fs) == fs[0] + [SEPARATOR] + fs[1] + [SEPARATOR] + fs[2] + [SEPARATOR] + fs[3] + [SEPARATOR]
                        + fs[4] + [SEPARATOR] + fs[5] + [SEPARATOR] + fs[6] + [SEPARATOR] + fs[7] + [SEPARATOR]
  {
    forall i: nat | i < 8 ensures Join(fs[..i + 1]) == Join(fs[..i]) + fs[i] + [SEPARATOR] {
      JoinSnoc(fs[..i], fs[i]);
      assert fs[..i + 1] == fs[..i] + [fs[i]];
    }
    assert Join(fs[..0]) + fs[0] == fs[0];
    assert fs[..8] == fs;
    assert Join(fs[..2]) == fs[0] + [SEPARATOR] + fs[1] + [SEPARATOR];
    assert Join(fs[..4]) == Join(fs[..2]) + fs[2] + [SEPARATOR] + fs[3] + [SEPARATOR];
    assert Join(fs[..6]) == Join(fs[..4]) + fs[4] + [SEPARATOR] + fs[5] + [SEPARATOR];
  }

  /** Counts the separators of a string. */
  method CountSeparators(str: string) returns (n: nat)
    ensures n == Separators(str)
  {
    n := 0;
    for i := 0 to |str|
      invariant n + Separators(str[i..]) == Separators(str)
    {
      if str[i] == SEPARATOR { n := n + 1; }
      assert str[i..][1..] == str[i + 1..];
    }
  }

  /** Reads from `pos` to the next separator; `next` is where reading goes on. */
  method GetLine(str: string, pos: nat) returns (line: string, next: nat)
    requires pos <= |str|
    ensures pos <= next <= |str|
    ensures line == Line(str[pos..]) && str[next..] == AfterLine(str[pos..])
  {
    line, next := "", pos;
    while next < |str| && str[next] != SEPARATOR
      invariant pos <= next <= |str|
      invariant line + Line(str[next..]) == Line(str[pos..])
      invariant AfterLine(str[next..]) == AfterLine(str[pos..])
    {
      assert str[next..][1..] == str[next + 1..];
      line := line + [str[next]];
      next := next + 1;
    }
    if next < |str| {
      assert str[next..][1..] == str[next + 1..];
      next := next + 1;
    }
  }

  ghost function Skip(s: string, n: nat): string {
    if n == 0 then s else AfterLine(Skip(s, n - 1))
  }

  /** Four fields in a row. */
  method GetFour(str: string, pos: nat) returns (a: string, b: string, c: string, d: string, next: nat)
    requires pos <= |str|
    ensures pos <= next <= |str| && str[next..] == Skip(str[pos..], 4)
    ensures a == Line(str[pos..]) && b == Line(Skip(str[pos..], 1))
    ensures c == Line(Skip(str[pos..], 2)) && d == Line(Skip(str[pos..], 3))
  {
    ghost var s := str[pos..];
    a, next := GetLine(str, pos);
    assert str[next..] == Skip(s, 1);
    b, next := GetLine(str, next);
    assert str[next..] == Skip(s, 2);
    c, next := GetLine(str, next);
    assert str[next..] == Skip(s, 3);
    d, next := GetLine(str, next);
  }

  class Message {
    var threadNumber: string
    var action: string
    var fd: string
    var id: string
    var name: string
    var colorId: string
    var initDone: string
    var msgContent: string

    function View(): Fields
      reads this
    {
      Fields(threadNumber, action, fd, id, name, colorId, initDone, msgContent)
    }

    constructor ()
      ensures View() == Fields("", "", "", "", "", "", "", "")
    {
      threadNumber, action, fd, id := "", "", "", "";
      name, colorId, initDone, msgContent := "", "", "", "";
    }

    method GetConcatenatedMsg() returns (s: string)
      ensures s == Print(View())
    {
      s := threadNumber + [SEPARATOR] + action + [SEPARATOR] + fd + [SEPARATOR] + id + [SEPARATOR] + name
           + [SEPARATOR] + colorId + [SEPARATOR] + initDone + [SEPARATOR] + msgContent + [SEPARATOR];
      JoinsFieldByField(AsList(View()));
    }

    method ResetMsg()
      modifies this
      ensures View() == Fields("", "", "", "", "", "", "", "")
    {
      threadNumber, action, fd, id := "", "", "", "";
      name, colorId, initDone, msgContent := "", "", "", "";
    }

    /** Fails, leaving the object as it was, unless the string has exactly eight separators. */
    method ConstructFromString(str: string) returns (ok: bool)
      modifies this
      ensures ok == Parse(str).Some?
      ensures View() == if ok then Parse(str).value else old(View())
    {
      var n := CountSeparators(str);
      if n != NR_OF_SEPARATIONS {
        return false;
      }
      var threadNumber, action, fd, id, pos := GetFour(str, 0);
      var name, colorId, initDone, msgContent, _ := GetFour(str, pos);
      EightLines(str);
      SkipTwice(str, 4);
      this.threadNumber, this.action, this.fd, this.id := threadNumber, action, fd, id;
      this.name, this.colorId, this.initDone, this.msgContent := name, colorId, initDone, msgContent;
      return true;
    }
  }

  lemma SkipTwice(s: string, n: nat)
    ensures Skip(Skip(s, n), 0) == Skip(s, n) && Skip(Skip(s, n), 1) == Skip(s, n + 1)
    ensures Skip(Skip(s, n), 2) == Skip(s, n + 2) && Skip(Skip(s, n), 3) == Skip(s, n + 3)
  {
  }

  lemma {:induction false} LinesBySkipping(s: string, n: nat, i: nat)
    requires i < n
    ensures Lines(s, n)[i] == Line(Skip(s, i))
    decreases n
  {
    if i > 0 {
      LinesBySkipping(AfterLine(s), n - 1, i - 1);
      SkipFromFront(s, i - 1);
    }
  }

  lemma {:induction false} SkipFromFront(s: string, n: nat)
    ensures Skip(AfterLine(s), n) == Skip(s, n + 1)
  {
    if n > 0 { SkipFromFront(s, n - 1); }
  }

  lemma EightLines(s: string)
    ensures Lines(s, 8) == [Line(Skip(s, 0)), Line(Skip(s, 1)), Line(Skip(s, 2)), Line(Skip(s, 3)),
                            Line(Skip(s, 4)), Line(Skip(s, 5)), Line(Skip(s, 6)), Line(Skip(s, 7))]
  {
    forall i: nat | i < 8 ensures Lines(s, 8)[i] == Line(Skip(s, i)) {
      LinesBySkipping(s, 8, i);
    }
  }
}
