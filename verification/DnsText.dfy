/** What the expansion of a name looks like: no text for the same labels is shorter. And what a reader of a name finds,
    byte by byte. Relates ares_expand_name.c and ares_mkquery.c. */
module DnsText {
  import opened Bytes
  import opened DnsName
  import opened DnsQuery
  import opened DnsRoundTrip

  // ------------------------------------------------------------------------
  // The shortest way to write some tokens
  // ------------------------------------------------------------------------

  function TokenText(t: Token): seq<byte> {
    match t
    case Sep => [DOT]
    case Ch(b) => EscapedByte(b)
  }

  function TokensText(ts: seq<Token>): seq<byte> {
    if ts == [] then [] else TokenText(ts[0]) + TokensText(ts[1..])
  }

  /** The name ends in a backslash with nothing behind it to escape: the backslash stands for itself. */
  predicate Loose(name: seq<byte>) {
    if name == [] then false
    else if name[0] == BACKSLASH then |name| == 1 || Loose(name[2..])
    else Loose(name[1..])
  }

  lemma {:induction false} TokensTextConcat(a: seq<Token>, b: seq<Token>)
    ensures TokensText(a + b) == TokensText(a) + TokensText(b)
  {
    if a == [] {
      assert a + b == b;
    } else {
      assert (a + b)[1..] == a[1..] + b;
      TokensTextConcat(a[1..], b);
    }
  }

  lemma TokensTextOne(t: Token)
    ensures TokensText([t]) == TokenText(t)
  {
    assert [t][1..] == [];
  }

  lemma {:induction false} TokensTextChars(bytes: seq<byte>)
    ensures TokensText(Chars(bytes)) == Escaped(bytes)
  {
    hide Chars, TokensText, Escaped;
    EscapedUnfold(bytes);
    TokensTextNil();
    if bytes == [] {
    } else {
      var init, last := bytes[..|bytes| - 1], bytes[|bytes| - 1];
      assert bytes == init + [last];
      CharsSnoc(init, last);
      TokensTextChars(init);
      TokensTextConcat(Chars(init), [Ch(last)]);
      TokensTextOne(Ch(last));
    }
  }

  lemma TokensTextNil()
    ensures TokensText([]) == []
  {
  }

  lemma {:induction false} TokensTextSpelled(labels: Labels)
    ensures TokensText(Spelled(labels)) == Text(labels)
  {
    hide Chars, TokensText, Escaped, Text, Spelled, EscapedByte;
    if labels == [] {
      TextNil();
      SpelledNil();
      TokensTextNil();
    } else {
      var lab, rest := labels[0], labels[1..];
      assert labels == [lab] + rest;
      SpelledCons(lab, rest);
      TextCons(lab, rest);
      TokensTextChars(lab);
      if rest != [] {
        TokensTextSpelled(rest);
        TokensTextConcat(Chars(lab) + [Sep], Spelled(rest));
        TokensTextConcat(Chars(lab), [Sep]);
        TokensTextOne(Sep);
        assert Escaped(lab) + [DOT] + Text(rest) == Escaped(lab) + ([DOT] + Text(rest));
      } else {
        assert Escaped(lab) + [] == Escaped(lab);
      }
    }
  }

  /** A name that does not end in a loose backslash is at least as long as the text of its tokens, and longer unless it
      is that text. */
  lemma {:induction false} ShortestTokens(name: seq<byte>)
    requires !Loose(name)
    ensures |TokensText(Tokens(name))| <= |name|
    ensures |TokensText(Tokens(name))| == |name| ==> TokensText(Tokens(name)) == name
  {
    if name == [] {
    } else if name[0] == BACKSLASH {
      ShortestTokens(name[2..]);
      assert Tokens(name)[1..] == Tokens(name[2..]);
      assert name == [BACKSLASH, name[1]] + name[2..];
    } else {
      ShortestTokens(name[1..]);
      assert Tokens(name)[1..] == Tokens(name[1..]);
      assert name == [name[0]] + name[1..];
    }
  }

  /** A second backslash behind a loose one changes nothing but that it is not loose any more. */
  lemma {:induction false} DoubleLoose(name: seq<byte>)
    requires Loose(name)
    ensures Tokens(name + [BACKSLASH]) == Tokens(name) && !Loose(name + [BACKSLASH])
    ensures Tokens(name) != [] && Tokens(name)[|Tokens(name)| - 1] == Ch(BACKSLASH)
  {
    var more := name + [BACKSLASH];
    if name[0] == BACKSLASH && |name| == 1 {
      assert more[2..] == [] && name[1..] == [];
    } else if name[0] == BACKSLASH {
      DoubleLoose(name[2..]);
      assert more[2..] == name[2..] + [BACKSLASH];
    } else {
      DoubleLoose(name[1..]);
      assert more[1..] == name[1..] + [BACKSLASH];
    }
  }

  /** The other way round: a backslash that ends a name and is not loose is the second of two; without it the first is
      loose. */
  lemma {:induction false} DropDouble(name: seq<byte>)
    requires !Loose(name) && Tokens(name) != [] && Tokens(name)[|Tokens(name)| - 1] == Ch(BACKSLASH)
    ensures Tokens(name[..|name| - 1]) == Tokens(name)
  {
    var less := name[..|name| - 1];
    if name[0] == BACKSLASH && |name| == 2 {
      assert name[2..] == [] && less == [BACKSLASH] && less[1..] == [];
    } else if name[0] == BACKSLASH {
      assert Tokens(name)[1..] == Tokens(name[2..]);
      NoTokensIff(name[2..]);
      DropDouble(name[2..]);
      assert less[2..] == name[2..][..|name| - 3];
    } else {
      assert Tokens(name)[1..] == Tokens(name[1..]);
      NoTokensIff(name[1..]);
      DropDouble(name[1..]);
      assert less[1..] == name[1..][..|name| - 2];
    }
  }

  lemma {:induction false} TextIsNotLoose(ts: seq<Token>)
    ensures !Loose(TokensText(ts))
  {
    if ts == [] {
    } else {
      TextIsNotLoose(ts[1..]);
      var text, rest := TokensText(ts), TokensText(ts[1..]);
      if |TokenText(ts[0])| == 2 {
        assert text[2..] == rest;
      } else {
        assert text[1..] == rest;
      }
    }
  }

  // ------------------------------------------------------------------------
  // The text of an expanded name
  // ------------------------------------------------------------------------

  predicate LastLabelEndsInBackslash(labels: Labels) {
    labels != [] && var last := labels[|labels| - 1]; last != [] && last[|last| - 1] == BACKSLASH
  }

  lemma {:induction false} LastOfSpelled(labels: Labels)
    requires ValidLabels(labels) && labels != []
    ensures var ts, last := Spelled(labels), labels[|labels| - 1];
            ts != [] && last != [] && ts[|ts| - 1] == Ch(last[|last| - 1])
  {
    var lab, rest := labels[0], labels[1..];
    assert labels == [lab] + rest;
    SpelledCons(lab, rest);
    LastChar(lab);
    hide Spelled, Chars;
    if rest != [] {
      LastOfSpelled(rest);
    }
  }

  /** Any name for some labels, against their text. */
  lemma {:induction false} AgainstText(labels: Labels, name: seq<byte>)
    requires Denotes(name, labels)
    ensures !Loose(name) ==> name == Text(labels) || |Text(labels)| < |name|
    ensures Loose(name) ==> LastLabelEndsInBackslash(labels)
    ensures Loose(name) ==> name + [BACKSLASH] == Text(labels) || |Text(labels)| <= |name|
  {
    hide Tokens, TokensText, Loose, Spelled, Text;
    var whole := if Loose(name) then name + [BACKSLASH] else name;
    if Loose(name) {
      DoubleLoose(name);
      if labels == [] {
        SpelledNil();
      } else {
        LastOfSpelled(labels);
      }
    }
    ShortestTokens(whole);
    TokensTextSpelled(labels);
    if Tokens(name) != Spelled(labels) {
      TokensTextConcat(Spelled(labels), [Sep]);
      TokensTextOne(Sep);
    }
  }

  /** Where the last label ends in a backslash, the text without its last character is one more name for the labels. */
  lemma {:induction false} LooseText(labels: Labels)
    requires ValidLabels(labels) && LastLabelEndsInBackslash(labels)
    ensures Text(labels) != [] && Denotes(Text(labels)[..|Text(labels)| - 1], labels)
  {
    hide Tokens, TokensText, Loose, Spelled, Text;
    var text := Text(labels);
    LastOfSpelled(labels);
    TokensOfText(labels);
    NoTokensIff(text);
    TokensTextSpelled(labels);
    TextIsNotLoose(Spelled(labels));
    DropDouble(text);
  }

  /** Among all names for some labels the text is the one shortest, unless the last label ends in a backslash. */
  lemma {:induction false} TextIsShortest(labels: Labels)
    requires ValidLabels(labels)
    ensures Denotes(Text(labels), labels)
    ensures (forall name :: Denotes(name, labels) ==> name == Text(labels) || |Text(labels)| < |name|)
            <==> !LastLabelEndsInBackslash(labels)
  {
    hide Text, Denotes, ValidLabels;
    TextDenotes(labels);
    if LastLabelEndsInBackslash(labels) {
      LooseText(labels);
      var name := Text(labels)[..|Text(labels)| - 1];
      assert Denotes(name, labels) && |name| < |Text(labels)|;
    } else {
      forall name | Denotes(name, labels) ensures name == Text(labels) || |Text(labels)| < |name| {
        AgainstText(labels, name);
      }
    }
  }

  /** If it does, one name is shorter: the text without its last character, a backslash that the one before it
      escapes. */
  lemma {:induction false} TextButOne(labels: Labels, name: seq<byte>)
    requires Denotes(name, labels) && LastLabelEndsInBackslash(labels)
    ensures Denotes(Text(labels)[..|Text(labels)| - 1], labels)
    ensures name == Text(labels)[..|Text(labels)| - 1] || |Text(labels)| <= |name|
  {
    hide Text, Denotes, ValidLabels;
    DenotedValid(labels, name);
    LooseText(labels);
    AgainstText(labels, name);
    assert name == (name + [BACKSLASH])[..|name|];
  }

  lemma DenotedValid(labels: Labels, name: seq<byte>)
    requires Denotes(name, labels)
    ensures ValidLabels(labels)
  {
  }

  /** Labels without dots and backslashes stand in the text as they are, a dot between any two. */
  lemma {:induction false} PlainText(labels: Labels)
    requires forall lab :: lab in labels ==> DOT !in lab && BACKSLASH !in lab
    ensures labels == [] ==> Text(labels) == []
    ensures labels != [] ==> Text(labels) == labels[0] + if |labels| == 1 then [] else [DOT] + Text(labels[1..])
  {
    hide Text, Escaped;
    if labels == [] {
      TextNil();
    } else {
      assert labels == [labels[0]] + labels[1..];
      TextCons(labels[0], labels[1..]);
      PlainLabel(labels[0]);
    }
  }

  lemma {:induction false} PlainLabel(lab: seq<byte>)
    requires DOT !in lab && BACKSLASH !in lab
    ensures Escaped(lab) == lab
  {
    if lab == [] {
    } else {
      PlainLabel(lab[..|lab| - 1]);
      assert lab == lab[..|lab| - 1] + [lab[|lab| - 1]];
    }
  }

  // ------------------------------------------------------------------------
  // What a reader of a name finds, in numbers
  // ------------------------------------------------------------------------

  /** A name at `next`, and what leads there from `p`. */
  lemma {:induction false} NameStep(m: seq<byte>, p: nat, next: nat)
    requires p < |m| && Follows(m, p, next)
    ensures Named(m, p) <==> Named(m, next)
    ensures Named(m, p) ==> next < |m| && (IsPointer(m[p]) || next <= |m|)
    ensures Named(m, p) ==> NameAt(m, p) == (if IsPointer(m[p]) then [] else [m[p + 1..next]]) + NameAt(m, next)
    ensures Named(m, p) ==> SpanAt(m, p) == if IsPointer(m[p]) then 2 else 1 + m[p] + SpanAt(m, next)
  {
    if Named(m, p) {
      var path :| Walk(m, path) && path[0] == p;
      WalkTail(m, path);
      assert Walk(m, path[1..]) && path[1..][0] == next;
    }
    if Named(m, next) {
      var rest :| Walk(m, rest) && rest[0] == next;
      TrailCons(m, p, rest);
      LabelsCons(m, p, rest);
      var path := [p] + rest;
      assert path[1..] == rest;
      NameAtWalk(m, rest);
      NameAtWalk(m, path);
    }
  }

  /** A name is a zero byte; or a length byte of 191 at most, that many bytes and a name; or two bytes, the first from
      192 on, whose low 14 bits, high byte first, are the offset of a name. */
  lemma {:induction false} NameUnfold(m: seq<byte>, p: nat)
    requires p < |m|
    ensures m[p] == 0 ==> Named(m, p) && NameAt(m, p) == [] && SpanAt(m, p) == 1
    ensures 1 <= m[p] <= 191 ==>
              var next := p + 1 + m[p];
              && (Named(m, p) <==> next < |m| && Named(m, next))
              && (Named(m, p) ==> NameAt(m, p) == [m[p + 1..next]] + NameAt(m, next))
              && (Named(m, p) ==> SpanAt(m, p) == 1 + m[p] + SpanAt(m, next))
    ensures m[p] >= 192 ==>
              && (Named(m, p) <==> p + 1 < |m| && Named(m, (m[p] as int - 192) * 256 + m[p + 1]))
              && (Named(m, p) ==>
                   NameAt(m, p) == NameAt(m, (m[p] as int - 192) * 256 + m[p + 1]) && SpanAt(m, p) == 2)
  {
    if m[p] == 0 {
      NameAtWalk(m, [p]);
    } else if m[p] <= 191 {
      NameStep(m, p, p + 1 + m[p]);
    } else if p + 1 < |m| {
      var next := (m[p] as int - 192) * 256 + m[p + 1];
      assert m[p] % 64 == m[p] - 192;
      NameStep(m, p, next);
      assert Named(m, p) ==> [] + NameAt(m, next) == NameAt(m, next);
    }
    if m[p] >= 192 && p + 1 == |m| {
      NotNamed(m, [p]);
    }
  }

  lemma WordValue(v: int)
    ensures (Word(v)[0] as int) * 256 + Word(v)[1] == v % 0x1_0000
  {
  }

  /** What a reader finds in a question: the ID first, the recursion-desired bit alone in the two flag bytes, a question
      count of one and no other counts; at the end of the header the name, and right behind it the type and then the
      class. Each number is in 16 bits, the high byte first. */
  lemma {:induction false} QuestionRead(labels: Labels, dnsclass: int, qtype: int, id: int, rd: bool)
    requires ValidLabels(labels)
    ensures var m := Question(labels, dnsclass, qtype, id, rd);
            && |m| >= 12 && Named(m, 12) && NameAt(m, 12) == labels
            && |m| == 12 + SpanAt(m, 12) + 4
            && (m[0] as int) * 256 + m[1] == id % 0x1_0000
            && m[2] == (if rd then 1 else 0) && m[3] == 0
            && m[4] == 0 && m[5] == 1
            && (forall i :: 6 <= i < 12 ==> m[i] == 0)
            && var k := 12 + SpanAt(m, 12);
               && (m[k] as int) * 256 + m[k + 1] == qtype % 0x1_0000
               && (m[k + 2] as int) * 256 + m[k + 3] == dnsclass % 0x1_0000
  {
    hide Wire, Named, NameAt, SpanAt, ValidLabels;
    var m := Question(labels, dnsclass, qtype, id, rd);
    QuestionName(labels, dnsclass, qtype, id, rd);
    WordValue(id);
    WordValue(qtype);
    WordValue(dnsclass);
    var k := 12 + |Wire(labels)|;
    assert m[k..k + 2] == Word(qtype) && m[k + 2..k + 4] == Word(dnsclass);
    assert m[k] == Word(qtype)[0] && m[k + 1] == Word(qtype)[1];
    assert m[k + 2] == Word(dnsclass)[0] && m[k + 3] == Word(dnsclass)[1];
  }

  lemma QuestionName(labels: Labels, dnsclass: int, qtype: int, id: int, rd: bool)
    requires ValidLabels(labels)
    ensures var m := Question(labels, dnsclass, qtype, id, rd);
            |m| >= 12 && Named(m, 12) && NameAt(m, 12) == labels && SpanAt(m, 12) == |Wire(labels)|
  {
    hide WireLabels;
    var m := Question(labels, dnsclass, qtype, id, rd);
    assert m[12..12 + |Wire(labels)|] == Wire(labels);
    WireExpands(m, 12, labels);
  }
}
