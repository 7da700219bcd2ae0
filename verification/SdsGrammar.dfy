/** The language of sdssplitargs, written down by itself: bare words, words that end in a part
    in double or single quotes, and the blanks between them. */
module SdsGrammar {
  import opened Bytes
  import opened Wrappers
  import opened SdsRepr

  // ----- Characters -----

  /** What ends a bare word. */
  predicate Separator(c: Byte) {
    c in {9, 10, 13, 32}
  }

  /** White space, with the vertical tab and the form feed. */
  predicate White(c: Byte) {
    c in {9, 10, 11, 12, 13, 32}
  }

  predicate Gap(s: seq<Byte>) {
    forall c :: c in s ==> White(c)
  }

  // ----- Forms -----

  /** One character of a quoted part as it is written: itself, two hexadecimal digits, or
      a backslash and a character. */
  datatype Item = Raw(byte: Byte) | Hex(high: Byte, low: Byte) | Slash(letter: Byte)

  function ItemText(item: Item): (text: seq<Byte>)
    ensures text != []
  {
    match item
    case Raw(byte) => [byte]
    case Hex(high, low) => [BACKSLASH, 120, high, low]
    case Slash(letter) => [BACKSLASH, letter]
  }

  function ItemsText(items: seq<Item>): seq<Byte> {
    if items == [] then [] else ItemText(items[0]) + ItemsText(items[1..])
  }

  /** The position of a hexadecimal digit among the sixteen. */
  predicate Means(digit: Byte, n: nat) {
    n < 16 && (if n < 10 then digit == 48 + n else digit == 97 + (n - 10) || digit == 65 + (n - 10))
  }

  /** What one character of a part in double quotes stands for. */
  predicate Stands(item: Item, byte: Byte) {
    match item
    case Raw(b) => byte == b
    case Hex(high, low) => exists h: nat, l: nat :: h < 16 && l < 16 && Means(high, h) && Means(low, l) && byte == 16 * h + l
    case Slash(letter) =>
      match letter
      case 110 => byte == NEWLINE
      case 114 => byte == RETURN
      case 116 => byte == TAB
      case 98 => byte == BACKSPACE
      case 97 => byte == BELL
      case _ => byte == letter
  }

  predicate HexPair(text: seq<Byte>) {
    |text| >= 2 && IsHexDigit(text[0]) && IsHexDigit(text[1])
  }

  /** A character in double quotes, given the text behind it. */
  predicate DoubleItem(item: Item, after: seq<Byte>) {
    match item
    case Raw(byte) => byte != QUOTE && byte != BACKSLASH
    case Hex(high, low) => IsHexDigit(high) && IsHexDigit(low)
    case Slash(letter) => letter == 120 ==> !HexPair(after)
  }

  /** A character in single quotes, where only an apostrophe needs a backslash. */
  predicate SingleItem(item: Item, after: seq<Byte>) {
    match item
    case Raw(byte) => byte != APOSTROPHE && (byte == BACKSLASH ==> after == [] || after[0] != APOSTROPHE)
    case Hex(_, _) => false
    case Slash(letter) => letter == APOSTROPHE
  }

  /** The part in double quotes, up to and with `tail`, stands for `bytes`. */
  predicate DoublePart(items: seq<Item>, tail: seq<Byte>, bytes: seq<Byte>) {
    if items == [] then bytes == []
    else bytes != [] && DoubleItem(items[0], ItemsText(items[1..]) + tail) && Stands(items[0], bytes[0]) && DoublePart(items[1..], tail, bytes[1..])
  }

  predicate SinglePart(items: seq<Item>, tail: seq<Byte>, bytes: seq<Byte>) {
    if items == [] then bytes == []
    else
      && bytes != [] && SingleItem(items[0], ItemsText(items[1..]) + tail)
      && bytes[0] == (if items[0].Raw? then items[0].byte else APOSTROPHE) && SinglePart(items[1..], tail, bytes[1..])
  }

  /** An argument as it is written. A quoted part, if there is one, ends it. */
  datatype Form =
    | Bare(word: seq<Byte>)
    | Double(word: seq<Byte>, items: seq<Item>)
    | Single(word: seq<Byte>, items: seq<Item>)

  function FormText(form: Form): (text: seq<Byte>) {
    match form
    case Bare(word) => word
    case Double(word, items) => word + ([QUOTE] + (ItemsText(items) + [QUOTE]))
    case Single(word, items) => word + ([APOSTROPHE] + (ItemsText(items) + [APOSTROPHE]))
  }

  predicate WordByte(c: Byte) {
    !Separator(c) && c != QUOTE && c != APOSTROPHE
  }

  predicate Word(word: seq<Byte>) {
    forall i :: 0 <= i < |word| ==> WordByte(word[i])
  }

  /** The form stands for `word` followed by `bytes`. */
  predicate Denotes(form: Form, bytes: seq<Byte>) {
    && Word(form.word)
    && match form
       case Bare(word) => bytes == word
       case Double(word, items) => word <= bytes && DoublePart(items, [QUOTE], bytes[|word|..])
       case Single(word, items) => word <= bytes && SinglePart(items, [APOSTROPHE], bytes[|word|..])
  }

  /** What may follow: a bare word goes on up to a space, tab or line end. */
  predicate Ends(form: Form, after: seq<Byte>) {
    if form.Bare? then after == [] || Separator(after[0]) else after == [] || White(after[0])
  }

  // ----- Scanning a form -----

  lemma HexMeans(c: Byte)
    requires IsHexDigit(c)
    ensures forall n: nat :: Means(c, n) <==> n == HexDigitToInt(c)
  {
  }

  lemma DoubleItemScanned(item: Item, after: seq<Byte>, byte: Byte, current: seq<Byte>)
    requires DoubleItem(item, after) && Stands(item, byte)
    ensures Scan(ItemText(item) + after, Quoted, current) == Scan(after, Quoted, current + [byte])
  {
    var text := ItemText(item);
    var s := text + after;
    assert s[|text|..] == after;
    match item
    case Raw(b) => assert s[0] == b;
    case Hex(high, low) =>
      assert s[..4] == text;
      HexMeans(high);
      HexMeans(low);
    case Slash(letter) =>
      assert s[..2] == text;
      assert |s| >= 4 ==> s[2] == after[0] && s[3] == after[1];
  }

  lemma SingleItemScanned(item: Item, after: seq<Byte>, byte: Byte, current: seq<Byte>)
    requires SingleItem(item, after) && byte == (if item.Raw? then item.byte else APOSTROPHE)
    ensures Scan(ItemText(item) + after, SingleQuoted, current) == Scan(after, SingleQuoted, current + [byte])
  {
    var text := ItemText(item);
    var s := text + after;
    assert s[|text|..] == after && s[..|text|] == text;
    assert item.Raw? && |s| > 1 ==> s[1] == after[0];
  }

  /** The scan passes over the items of a part in double quotes. */
  lemma {:induction false} DoubleScanned(items: seq<Item>, tail: seq<Byte>, after: seq<Byte>, bytes: seq<Byte>, current: seq<Byte>)
    requires DoublePart(items, tail, bytes) && (if tail == [] then after == [] else !IsHexDigit(tail[0]))
    ensures Scan(ItemsText(items) + (tail + after), Quoted, current) == Scan(tail + after, Quoted, current + bytes)
    decreases items
  {
    if items == [] {
      assert ItemsText(items) + (tail + after) == tail + after && current + bytes == current;
    } else {
      var more := ItemsText(items[1..]);
      ConcatAssociates(ItemText(items[0]), more, tail + after);
      ConcatAssociates(more, tail, after);
      StillNoPair(items[0], more + tail, after, |more|);
      DoubleItemScanned(items[0], more + (tail + after), bytes[0], current);
      DoubleScanned(items[1..], tail, after, bytes[1..], current + [bytes[0]]);
      ConcatAssociates(current, [bytes[0]], bytes[1..]);
      assert [bytes[0]] + bytes[1..] == bytes;
    }
  }

  /** What follows the closing quote makes no pair of digits. */
  lemma StillNoPair(item: Item, text: seq<Byte>, after: seq<Byte>, n: nat)
    requires DoubleItem(item, text) && (after == [] || (n < |text| && !IsHexDigit(text[n])))
    ensures DoubleItem(item, text + after)
  {
    assert after == [] ==> text + after == text;
  }

  lemma {:induction false} SingleScanned(items: seq<Item>, tail: seq<Byte>, after: seq<Byte>, bytes: seq<Byte>, current: seq<Byte>)
    requires SinglePart(items, tail, bytes) && (tail == [] ==> after == [])
    ensures Scan(ItemsText(items) + (tail + after), SingleQuoted, current) == Scan(tail + after, SingleQuoted, current + bytes)
    decreases items
  {
    if items == [] {
      assert ItemsText(items) + (tail + after) == tail + after && current + bytes == current;
    } else {
      var more := ItemsText(items[1..]);
      ConcatAssociates(ItemText(items[0]), more, tail + after);
      ConcatAssociates(more, tail, after);
      assert if more + tail == [] then more + tail + after == [] else (more + tail + after)[0] == (more + tail)[0];
      SingleItemScanned(items[0], more + (tail + after), bytes[0], current);
      SingleScanned(items[1..], tail, after, bytes[1..], current + [bytes[0]]);
      ConcatAssociates(current, [bytes[0]], bytes[1..]);
      assert [bytes[0]] + bytes[1..] == bytes;
    }
  }

  lemma {:induction false} WordScanned(word: seq<Byte>, after: seq<Byte>, current: seq<Byte>)
    requires Word(word)
    ensures Scan(word + after, Plain, current) == Scan(after, Plain, current + word)
    decreases word
  {
    if word == [] {
      assert word + after == after && current + word == current;
    } else {
      assert (word + after)[1..] == word[1..] + after && (word + after)[0] == word[0];
      WordScanned(word[1..], after, current + [word[0]]);
      ConcatAssociates(current, [word[0]], word[1..]);
      assert [word[0]] + word[1..] == word;
    }
  }

  /** What is left of the line once the token is read: a bare word takes one blank with it. */
  function LeftBy(form: Form, after: seq<Byte>): seq<Byte> {
    if form.Bare? && after != [] then after[1..] else after
  }

  lemma QuoteOpens(quote: Byte, text: seq<Byte>, current: seq<Byte>)
    requires quote == QUOTE || quote == APOSTROPHE
    ensures Scan([quote] + text, Plain, current) == Scan(text, if quote == QUOTE then Quoted else SingleQuoted, current)
  {
    assert ([quote] + text)[1..] == text;
  }

  lemma QuoteCloses(quote: Byte, after: seq<Byte>, current: seq<Byte>)
    requires quote == QUOTE || quote == APOSTROPHE
    ensures Scan([quote] + after, if quote == QUOTE then Quoted else SingleQuoted, current)
            == if EndsToken(after) then Token(current, after) else Bad
  {
    var s := [quote] + after;
    assert s[1..] == after && s[0] == quote;
  }

  /** The scan of a quoted form, whatever follows its closing quote. */
  lemma QuotedFormScanned(form: Form, bytes: seq<Byte>, after: seq<Byte>)
    requires Denotes(form, bytes) && !form.Bare?
    ensures Scan(FormText(form) + after, Plain, []) == if EndsToken(after) then Token(bytes, after) else Bad
  {
    var word, items := form.word, form.items;
    var quote := if form.Double? then QUOTE else APOSTROPHE;
    var part := ItemsText(items) + ([quote] + after);
    QuotedText(word, quote, ItemsText(items), after);
    WordScanned(word, [quote] + part, []);
    QuoteOpens(quote, part, [] + word);
    if form.Double? {
      DoubleScanned(items, [QUOTE], after, bytes[|word|..], [] + word);
    } else {
      SingleScanned(items, [APOSTROPHE], after, bytes[|word|..], [] + word);
    }
    QuoteCloses(quote, after, [] + word + bytes[|word|..]);
    assert [] + word + bytes[|word|..] == bytes;
  }

  lemma QuotedText(word: seq<Byte>, quote: Byte, text: seq<Byte>, after: seq<Byte>)
    ensures (word + ([quote] + (text + [quote]))) + after == word + ([quote] + (text + ([quote] + after)))
  {
    ConcatAssociates(word, [quote] + (text + [quote]), after);
    ConcatAssociates([quote], text + [quote], after);
    ConcatAssociates(text, [quote], after);
  }

  /** A form that is properly ended is read as one token, and stands for what was read. */
  lemma FormScanned(form: Form, bytes: seq<Byte>, after: seq<Byte>)
    requires Denotes(form, bytes) && Ends(form, after)
    ensures Scan(FormText(form) + after, Plain, []) == Token(bytes, LeftBy(form, after))
  {
    if form.Bare? {
      WordScanned(form.word, after, []);
      assert [] + form.word == form.word;
    } else {
      QuotedFormScanned(form, bytes, after);
    }
  }

  // ----- Lines -----

  /** The forms, each preceded by its gap, and a last gap. */
  function LineText(forms: seq<Form>, gaps: seq<seq<Byte>>): seq<Byte>
    requires |gaps| == |forms| + 1
  {
    if forms == [] then gaps[0] else gaps[0] + (FormText(forms[0]) + LineText(forms[1..], gaps[1..]))
  }

  predicate Starts(form: Form) {
    FormText(form) != [] && !White(FormText(form)[0])
  }

  /** The line is a spelling of the arguments: gaps are white space, and every form is ended
      by what follows it. */
  predicate Spells(forms: seq<Form>, gaps: seq<seq<Byte>>, args: seq<seq<Byte>>) {
    && |gaps| == |forms| + 1 && |args| == |forms| && Gap(gaps[0])
    && (forms != [] ==>
          && Denotes(forms[0], args[0]) && Starts(forms[0]) && Ends(forms[0], LineText(forms[1..], gaps[1..]))
          && Spells(forms[1..], gaps[1..], args[1..]))
  }

  lemma BlankTaken(form: Form, after: seq<Byte>)
    requires Ends(form, after)
    ensures SplitArgs(LeftBy(form, after)) == SplitArgs(after)
  {
  }

  lemma TokenFirst(gap: seq<Byte>, form: Form, bytes: seq<Byte>, after: seq<Byte>)
    requires Gap(gap) && Denotes(form, bytes) && Starts(form) && Ends(form, after)
    ensures SplitArgs(gap + (FormText(form) + after)) == Continue([bytes], after)
  {
    assert (FormText(form) + after)[0] == FormText(form)[0];
    SkipBlankPrefix(gap, FormText(form) + after);
    FormScanned(form, bytes, after);
    BlankTaken(form, after);
  }

  /** Every spelling of a list of arguments is split into that list. */
  lemma {:induction false} SpellingSplit(forms: seq<Form>, gaps: seq<seq<Byte>>, args: seq<seq<Byte>>)
    requires Spells(forms, gaps, args)
    ensures SplitArgs(LineText(forms, gaps)) == Some(args)
    decreases forms
  {
    if forms == [] {
      assert gaps[0] + [] == gaps[0];
      SkipBlankPrefix(gaps[0], []);
    } else {
      TokenFirst(gaps[0], forms[0], args[0], LineText(forms[1..], gaps[1..]));
      SpellingSplit(forms[1..], gaps[1..], args[1..]);
      assert args == [args[0]] + args[1..];
    }
  }

  // ----- Only spellings are accepted -----

  lemma DoubleFirst(s: seq<Byte>, current: seq<Byte>) returns (item: Item, byte: Byte)
    requires s != [] && s[0] != QUOTE && Scan(s, Quoted, current).Token?
    ensures ItemText(item) <= s && Stands(item, byte) && DoubleItem(item, s[|ItemText(item)|..])
    ensures Scan(s, Quoted, current) == Scan(s[|ItemText(item)|..], Quoted, current + [byte])
  {
    if s == [BACKSLASH] {
      LastBackslash(s, current);
    }
    if IsHexEscape(s) {
      item, byte := Hex(s[2], s[3]), HexEscape(s);
      HexMeans(s[2]);
      HexMeans(s[3]);
      assert Means(s[2], HexDigitToInt(s[2])) && Means(s[3], HexDigitToInt(s[3]));
    } else if s[0] == BACKSLASH && |s| > 1 {
      item, byte := Slash(s[1]), Unescape(s[1]);
      assert |s[2..]| >= 2 ==> s[2..][0] == s[2] && s[2..][1] == s[3];
    } else {
      item, byte := Raw(s[0]), s[0];
    }
  }

  lemma LastBackslash(s: seq<Byte>, current: seq<Byte>)
    requires s == [BACKSLASH]
    ensures Scan(s, Quoted, current) == Bad
  {
    assert s[1..] == [];
  }

  lemma {:induction false} DoubleParsed(s: seq<Byte>, current: seq<Byte>) returns (items: seq<Item>, bytes: seq<Byte>)
    requires Scan(s, Quoted, current).Token?
    ensures var r := Scan(s, Quoted, current);
            DoublePart(items, [QUOTE], bytes) && r.bytes == current + bytes && s == ItemsText(items) + ([QUOTE] + r.rest) && EndsToken(r.rest)
    decreases s
  {
    var r := Scan(s, Quoted, current);
    if s[0] == QUOTE {
      items, bytes := [], [];
      assert s == [] + ([QUOTE] + s[1..]);
    } else {
      var item, byte := DoubleFirst(s, current);
      var n := |ItemText(item)|;
      var more, rest := DoubleParsed(s[n..], current + [byte]);
      items, bytes := [item] + more, [byte] + rest;
      assert s == ItemText(item) + s[n..];
      ConcatAssociates(ItemText(item), ItemsText(more), [QUOTE] + r.rest);
      ConcatAssociates(ItemsText(more), [QUOTE], r.rest);
      ConcatAssociates(current, [byte], rest);
      PairShortened(item, ItemsText(more) + [QUOTE], r.rest);
    }
  }

  lemma PairShortened(item: Item, text: seq<Byte>, after: seq<Byte>)
    requires DoubleItem(item, text + after)
    ensures DoubleItem(item, text)
  {
    assert |text| >= 2 ==> (text + after)[0] == text[0] && (text + after)[1] == text[1];
  }

  lemma {:induction false} SingleParsed(s: seq<Byte>, current: seq<Byte>) returns (items: seq<Item>, bytes: seq<Byte>)
    requires Scan(s, SingleQuoted, current).Token?
    ensures var r := Scan(s, SingleQuoted, current);
            SinglePart(items, [APOSTROPHE], bytes) && r.bytes == current + bytes && s == ItemsText(items) + ([APOSTROPHE] + r.rest) && EndsToken(r.rest)
    decreases s
  {
    var r := Scan(s, SingleQuoted, current);
    if s[0] == APOSTROPHE {
      items, bytes := [], [];
      assert s == [] + ([APOSTROPHE] + s[1..]);
    } else {
      var escaped := s[0] == BACKSLASH && |s| > 1 && s[1] == APOSTROPHE;
      var item, byte := if escaped then Slash(APOSTROPHE) else Raw(s[0]), if escaped then APOSTROPHE else s[0];
      var n := |ItemText(item)|;
      var more, rest := SingleParsed(s[n..], current + [byte]);
      items, bytes := [item] + more, [byte] + rest;
      assert s == ItemText(item) + s[n..];
      ConcatAssociates(ItemText(item), ItemsText(more), [APOSTROPHE] + r.rest);
      ConcatAssociates(ItemsText(more), [APOSTROPHE], r.rest);
      ConcatAssociates(current, [byte], rest);
      assert s[n..][0] == (ItemsText(more) + [APOSTROPHE])[0];
    }
  }

  lemma {:induction false} PlainParsed(s: seq<Byte>, current: seq<Byte>) returns (form: Form, bytes: seq<Byte>, after: seq<Byte>)
    requires Scan(s, Plain, current).Token?
    ensures var r := Scan(s, Plain, current);
            Denotes(form, bytes) && Ends(form, after) && s == FormText(form) + after && r == Token(current + bytes, LeftBy(form, after))
    decreases s
  {
    var r := Scan(s, Plain, current);
    if s == [] || EndsPlain(s[0]) {
      form, bytes, after := Bare([]), [], s;
      assert s == [] + s && current + [] == current;
    } else if s[0] == QUOTE || s[0] == APOSTROPHE {
      var items;
      assert s == [s[0]] + s[1..];
      if s[0] == QUOTE {
        items, bytes := DoubleParsed(s[1..], current);
        form := Double([], items);
      } else {
        items, bytes := SingleParsed(s[1..], current);
        form := Single([], items);
      }
      after := r.rest;
      QuotedText([], s[0], ItemsText(items), after);
      assert bytes[|form.word|..] == bytes;
      assert [] + (s) == s;
    } else {
      form, bytes, after := PlainParsed(s[1..], current + [s[0]]);
      ConcatAssociates(current, [s[0]], bytes);
      form, bytes := WordGrown(s[0], form, bytes, after);
      assert s == [s[0]] + s[1..];
    }
  }

  lemma WordGrown(c: Byte, form: Form, bytes: seq<Byte>, after: seq<Byte>) returns (form': Form, bytes': seq<Byte>)
    requires WordByte(c) && Denotes(form, bytes) && Ends(form, after)
    ensures Denotes(form', bytes') && Ends(form', after) && bytes' == [c] + bytes
    ensures FormText(form') + after == [c] + (FormText(form) + after) && LeftBy(form', after) == LeftBy(form, after)
  {
    form', bytes' := form.(word := [c] + form.word), [c] + bytes;
    assert form.word <= bytes ==> bytes'[|form'.word|..] == bytes[|form.word|..];
    TextGrown(c, form);
    ConcatAssociates([c], FormText(form), after);
  }

  lemma TextGrown(c: Byte, form: Form)
    ensures FormText(form.(word := [c] + form.word)) == [c] + FormText(form)
  {
    if !form.Bare? {
      var quote := if form.Double? then QUOTE else APOSTROPHE;
      ConcatAssociates([c], form.word, [quote] + (ItemsText(form.items) + [quote]));
    }
  }

  lemma {:induction false} BlanksSkipped(s: seq<Byte>) returns (gap: seq<Byte>)
    ensures Gap(gap) && s == gap + SkipBlanks(s) && (SkipBlanks(s) == [] || !IsSpace(SkipBlanks(s)[0]))
  {
    if s != [] && IsSpace(s[0]) {
      gap := BlanksSkipped(s[1..]);
      gap := [s[0]] + gap;
      assert s == [s[0]] + s[1..];
    } else {
      gap := [];
      assert s == [] + s;
    }
  }

  /** Whatever line is accepted is a spelling of the arguments it is split into. */
  lemma {:induction false} SplitSpelled(s: seq<Byte>) returns (forms: seq<Form>, gaps: seq<seq<Byte>>)
    requires SplitArgs(s).Some?
    ensures Spells(forms, gaps, SplitArgs(s).value) && LineText(forms, gaps) == s
    decreases |s|
  {
    var gap := BlanksSkipped(s);
    var t := SkipBlanks(s);
    if t == [] {
      forms, gaps := [], [gap];
      assert gap + [] == gap;
    } else {
      var form, bytes, after := PlainParsed(t, []);
      assert [] + bytes == bytes;
      BlankTaken(form, after);
      StartsThere(form, after, bytes);
      var more, rest := SplitSpelled(after);
      forms, gaps := [form] + more, [gap] + rest;
      SpellingGrown(gap, form, bytes, more, rest, SplitArgs(after).value);
    }
  }

  /** A token begins where the blanks end. */
  lemma StartsThere(form: Form, after: seq<Byte>, bytes: seq<Byte>)
    requires Denotes(form, bytes) && Ends(form, after) && FormText(form) + after != [] && !IsSpace((FormText(form) + after)[0])
    ensures Starts(form) && |after| < |FormText(form) + after|
  {
    assert FormText(form) == [] ==> FormText(form) + after == after;
    assert FormText(form) != [] ==> (FormText(form) + after)[0] == FormText(form)[0];
  }

  lemma SpellingGrown(gap: seq<Byte>, form: Form, bytes: seq<Byte>, forms: seq<Form>, gaps: seq<seq<Byte>>, args: seq<seq<Byte>>)
    requires Spells(forms, gaps, args) && Gap(gap) && Denotes(form, bytes) && Starts(form) && Ends(form, LineText(forms, gaps))
    ensures Spells([form] + forms, [gap] + gaps, [bytes] + args)
    ensures LineText([form] + forms, [gap] + gaps) == gap + (FormText(form) + LineText(forms, gaps))
  {
    assert ([form] + forms)[1..] == forms && ([gap] + gaps)[1..] == gaps && ([bytes] + args)[1..] == args;
  }

  /** A line is split into a list of arguments if and only if it is a spelling of it; so it is
      refused if and only if it is a spelling of nothing. */
  lemma SplitExact(s: seq<Byte>, args: seq<seq<Byte>>)
    ensures SplitArgs(s) == Some(args) <==> exists forms, gaps :: Spells(forms, gaps, args) && LineText(forms, gaps) == s
  {
    if SplitArgs(s) == Some(args) {
      var forms, gaps := SplitSpelled(s);
    }
    if exists forms, gaps :: Spells(forms, gaps, args) && LineText(forms, gaps) == s {
      var forms, gaps :| Spells(forms, gaps, args) && LineText(forms, gaps) == s;
      SpellingSplit(forms, gaps, args);
    }
  }

  // ----- Refusals -----

  predicate Apart(forms: seq<Form>, gaps: seq<seq<Byte>>) {
    |gaps| == |forms| + 1 && (forms != [] ==> gaps[|forms|] != [] && Separator(gaps[|forms|][0]))
  }

  /** Arguments that are ended by a blank are read, and the rest of the line decides. */
  lemma {:induction false} PrefixSplit(forms: seq<Form>, gaps: seq<seq<Byte>>, args: seq<seq<Byte>>, tail: seq<Byte>)
    requires Spells(forms, gaps, args) && Apart(forms, gaps)
    ensures SplitArgs(LineText(forms, gaps) + tail) == Continue(args, tail)
    decreases forms
  {
    if forms == [] {
      BlanksBefore(gaps[0], tail);
      assert SplitArgs(tail).Some? ==> [] + SplitArgs(tail).value == SplitArgs(tail).value;
    } else {
      var rest := LineText(forms[1..], gaps[1..]);
      PrefixSplit(forms[1..], gaps[1..], args[1..], tail);
      ConcatAssociates(gaps[0], FormText(forms[0]) + rest, tail);
      ConcatAssociates(FormText(forms[0]), rest, tail);
      NotEmpty(forms[1..], gaps[1..], args[1..]);
      assert (rest + tail)[0] == rest[0];
      TokenFirst(gaps[0], forms[0], args[0], rest + tail);
      ContinueChained(args, rest + tail, tail);
    }
  }

  lemma ContinueChained(args: seq<seq<Byte>>, s: seq<Byte>, tail: seq<Byte>)
    requires args != [] && SplitArgs(s) == Continue(args[1..], tail)
    ensures Continue([args[0]], s) == Continue(args, tail)
  {
    if SplitArgs(tail).Some? {
      ConcatAssociates([args[0]], args[1..], SplitArgs(tail).value);
      assert [args[0]] + args[1..] == args;
    }
  }

  lemma NotEmpty(forms: seq<Form>, gaps: seq<seq<Byte>>, args: seq<seq<Byte>>)
    requires Spells(forms, gaps, args) && gaps[|forms|] != []
    ensures LineText(forms, gaps) != []
  {
  }

  lemma {:induction false} BlanksBefore(gap: seq<Byte>, tail: seq<Byte>)
    requires Gap(gap)
    ensures SkipBlanks(gap + tail) == SkipBlanks(tail) && SplitArgs(gap + tail) == SplitArgs(tail)
  {
    if gap == [] {
      assert gap + tail == tail;
    } else {
      assert gap[0] in gap && (gap + tail)[1..] == gap[1..] + tail;
      BlanksBefore(gap[1..], tail);
    }
  }

  /** A closing quote that is not followed by a blank makes the whole line be refused. */
  lemma ClosedEarlyRefused(forms: seq<Form>, gaps: seq<seq<Byte>>, args: seq<seq<Byte>>, form: Form, bytes: seq<Byte>, after: seq<Byte>)
    requires Spells(forms, gaps, args) && Apart(forms, gaps)
    requires !form.Bare? && Denotes(form, bytes) && Starts(form) && after != [] && !White(after[0])
    ensures SplitArgs(LineText(forms, gaps) + (FormText(form) + after)) == None
  {
    PrefixSplit(forms, gaps, args, FormText(form) + after);
    assert (FormText(form) + after)[0] == FormText(form)[0];
    QuotedFormScanned(form, bytes, after);
  }

  /** And so does a quote that is never closed. */
  lemma UnclosedRefused(forms: seq<Form>, gaps: seq<seq<Byte>>, args: seq<seq<Byte>>, word: seq<Byte>, double: bool, items: seq<Item>, bytes: seq<Byte>)
    requires Spells(forms, gaps, args) && Apart(forms, gaps)
    requires Word(word) && (word != [] ==> !White(word[0]))
    requires if double then DoublePart(items, [], bytes) else SinglePart(items, [], bytes)
    ensures SplitArgs(LineText(forms, gaps) + (word + ([if double then QUOTE else APOSTROPHE] + ItemsText(items)))) == None
  {
    var quote := if double then QUOTE else APOSTROPHE;
    var tail := word + ([quote] + ItemsText(items));
    PrefixSplit(forms, gaps, args, tail);
    assert !IsSpace(tail[0]);
    WordScanned(word, [quote] + ItemsText(items), []);
    QuoteOpens(quote, ItemsText(items), [] + word);
    assert ItemsText(items) + ([] + []) == ItemsText(items);
    if double {
      DoubleScanned(items, [], [], bytes, [] + word);
    } else {
      SingleScanned(items, [], [], bytes, [] + word);
    }
  }
}
