/** Texts made of lines that each end with a newline: list replies and multi-line actions. */
module Lines {
  import opened Bytes
  import opened Messages
  import opened Framing

  type Text = seq<byte>

  function JoinLines(lines: seq<Text>): Text {
    if lines == [] then [] else lines[0] + [LF] + JoinLines(lines[1..])
  }

  lemma {:induction false} JoinAppend(a: seq<Text>, b: seq<Text>)
    ensures JoinLines(a + b) == JoinLines(a) + JoinLines(b)
  {
    if a == [] {
      assert a + b == b;
    } else {
      calc {
        JoinLines(a + b);
        { assert (a + b)[1..] == a[1..] + b; }
        a[0] + [LF] + JoinLines(a[1..] + b);
        { JoinAppend(a[1..], b); }
        a[0] + [LF] + (JoinLines(a[1..]) + JoinLines(b));
        a[0] + [LF] + JoinLines(a[1..]) + JoinLines(b);
      }
    }
  }

  function Contents(ms: seq<Message>): (r: seq<Text>)
    ensures |r| == |ms|
  {
    seq(|ms|, i requires 0 <= i < |ms| => ms[i].contents)
  }

  function Notes(lines: seq<Text>): (r: seq<Message>)
    ensures |r| == |lines|
    ensures Contents(r) == lines
  {
    seq(|lines|, i requires 0 <= i < |lines| => Message(Reply, 0, lines[i]))
  }

  lemma {:induction false} JoinIsEncoding(lines: seq<Text>)
    ensures JoinLines(lines) == EncodeAll(Line, Notes(lines))
  {
    if lines != [] {
      JoinIsEncoding(lines[1..]);
      EncodeAllCons(Line, Notes(lines)[0], Notes(lines[1..]));
      assert [Notes(lines)[0]] + Notes(lines[1..]) == Notes(lines);
    }
  }

  /** Splitting at the newlines gives back the lines, when none of them holds one. */
  lemma SplitUndoesJoin(lines: seq<Text>)
    requires forall i :: 0 <= i < |lines| ==> Fits(Line, lines[i])
    ensures var r := Parse(Line, JoinLines(lines)); Contents(r.messages) == lines && r.rest == []
  {
    hide Parse, EncodeAll, Fits;
    var ms := Notes(lines);
    JoinIsEncoding(lines);
    ParseAllEncoded(Line, ms);
    assert ReceivedAll(Line, ms) == ms;
  }

  predicate EndsWithCr(line: Text) {
    line != [] && line[|line| - 1] == CR
  }

  ghost predicate Crlf(c: Text, i: int) {
    0 <= i < |c| - 1 && c[i] == CR && c[i + 1] == LF
  }

  lemma FitsTelnet(c: Text)
    ensures Fits(Telnet, c) <==> forall i :: !Crlf(c, i)
  {
    if i :| Crlf(c, i) {
      assert !Fits(Telnet, c);
    } else if i :| 0 <= i < |c| - 1 && c[i] == CR && c[i + 1] == LF {
      assert Crlf(c, i);
    }
  }

  /** One line in front: it adds a carriage return and line feed exactly when it ends with the former. */
  lemma LineInFront(line: Text, tail: Text)
    requires Fits(Telnet, line)
    ensures Fits(Telnet, line + [LF] + tail) <==> !EndsWithCr(line) && Fits(Telnet, tail)
  {
    var c, n := line + [LF] + tail, |line| + 1;
    FitsTelnet(line);
    FitsTelnet(tail);
    FitsTelnet(c);
    assert c[|line|] == LF;
    if EndsWithCr(line) {
      assert Crlf(c, |line| - 1);
    } else {
      forall i
        ensures Crlf(c, i) == Crlf(tail, i - n)
      {
        assert i < |line| - 1 ==> Crlf(c, i) == Crlf(line, i);
      }
      if j :| Crlf(tail, j) {
        assert Crlf(c, j + n);
      }
    }
  }

  /** A text of telnet-framable lines is itself telnet-framable exactly when no line ends with a carriage return. */
  lemma {:induction false} JoinFitsTelnet(lines: seq<Text>)
    requires forall i :: 0 <= i < |lines| ==> Fits(Telnet, lines[i])
    ensures Fits(Telnet, JoinLines(lines)) <==> forall i :: 0 <= i < |lines| ==> !EndsWithCr(lines[i])
  {
    if lines != [] {
      JoinFitsTelnet(lines[1..]);
      LineInFront(lines[0], JoinLines(lines[1..]));
      assert lines == [lines[0]] + lines[1..];
    }
  }
}
