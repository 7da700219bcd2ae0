/** The dynamic strings of sds.cc: a length and a free count in front of a NUL-terminated
    block, grown in place, and the printer that appends to one. */
module SdsString {
  import opened Bytes
  import opened SdsRepr

  const MAX_PREALLOC: nat := 1024 * 1024

  class Sds {
    var buf: array<Byte>  // len + free bytes and one for the terminator
    var len: nat
    var free: nat

    ghost predicate Valid()
      reads this, buf
    {
      buf.Length == len + free + 1 && buf[len] == 0
    }

    ghost function Contents(): seq<Byte>
      requires Valid()
      reads this, buf
    {
      buf[..len]
    }

    /** sdsempty. */
    constructor ()
      ensures Valid() && fresh(buf) && Contents() == []
    {
      buf := new Byte[1];
      len, free := 0, 0;
      new;
      buf[0] := 0;
    }

    /** sdsMakeRoomFor: doubles the new length while it is small, and adds a fixed amount
        once it is large. */
    method MakeRoomFor(addlen: nat)
      requires Valid()
      modifies this
      ensures Valid() && Contents() == old(Contents()) && (buf == old(buf) || fresh(buf))
      ensures free >= addlen && len == old(len)
      ensures old(free) < addlen && len + addlen < MAX_PREALLOC ==> len + free == 2 * (len + addlen)
      ensures old(free) < addlen && len + addlen >= MAX_PREALLOC ==> len + free == len + addlen + MAX_PREALLOC
      ensures old(free) >= addlen ==> buf == old(buf) && free == old(free)
    {
      if free >= addlen {
        return;
      }
      var newlen := len + addlen;
      if newlen < MAX_PREALLOC {
        newlen := newlen * 2;
      } else {
        newlen := newlen + MAX_PREALLOC;
      }
      var block := new Byte[newlen + 1];
      forall i | 0 <= i <= len {
        block[i] := buf[i];
      }
      assert block[..len] == buf[..len];
      buf, free := block, newlen - len;
    }

    /** sdscatlen. */
    method CatLen(t: seq<Byte>)
      requires Valid()
      modifies this, buf
      ensures Valid() && Contents() == old(Contents()) + t && (buf == old(buf) || fresh(buf))
    {
      MakeRoomFor(|t|);
      forall i | 0 <= i < |t| {
        buf[len + i] := t[i];
      }
      assert buf[..len + |t|] == old(Contents()) + t;
      len, free := len + |t|, free - |t|;
      buf[len] := 0;
    }

    /** The switch of sdscatrepr. */
    method CatEscaped(c: Byte)
      requires Valid()
      modifies this, buf
      ensures Valid() && Contents() == old(Contents()) + EscapeByte(c) && (buf == old(buf) || fresh(buf))
    {
      if c == BACKSLASH || c == QUOTE {
        CatLen([BACKSLASH, c]);
      } else if c == NEWLINE {
        CatLen([BACKSLASH, 110]);
      } else if c == RETURN {
        CatLen([BACKSLASH, 114]);
      } else if c == TAB {
        CatLen([BACKSLASH, 116]);
      } else if c == BELL {
        CatLen([BACKSLASH, 97]);
      } else if c == BACKSPACE {
        CatLen([BACKSLASH, 98]);
      } else if IsPrint(c) {
        CatLen([c]);
      } else {
        CatLen([BACKSLASH, 120, HexDigit(c / 16), HexDigit(c % 16)]);
      }
    }

    /** The loop of sdscatrepr. */
    method CatEscapedBytes(p: seq<Byte>)
      requires Valid()
      modifies this, buf
      ensures Valid() && Contents() == old(Contents()) + Escape(p) && (buf == old(buf) || fresh(buf))
    {
      ghost var start := Contents();
      var i := 0;
      assert start + Escape(p[..0]) == start;
      while i < |p|
        invariant 0 <= i <= |p| && Valid() && (buf == old(buf) || fresh(buf))
        invariant Contents() == start + Escape(p[..i])
      {
        EscapeNextAfter(start, p, i);
        CatEscaped(p[i]);
        i := i + 1;
      }
      assert p[..i] == p;
    }

    /** sdscatrepr: appends the quoted form of a byte string. */
    method CatRepr(p: seq<Byte>)
      requires Valid()
      modifies this, buf
      ensures Valid() && Contents() == old(Contents()) + Repr(p) && (buf == old(buf) || fresh(buf))
    {
      ReprAfter(Contents(), p);
      CatLen([QUOTE]);
      CatEscapedBytes(p);
      CatLen([QUOTE]);
    }
  }

  lemma EscapeNextAfter(start: seq<Byte>, p: seq<Byte>, i: nat)
    requires i < |p|
    ensures start + Escape(p[..i]) + EscapeByte(p[i]) == start + Escape(p[..i + 1])
  {
    EscapeNext(p, i);
  }

  lemma ReprAfter(start: seq<Byte>, p: seq<Byte>)
    ensures start + [QUOTE] + Escape(p) + [QUOTE] == start + Repr(p)
  {
  }

  // ----- The round trip -----

  /** One more argument of a line with single spaces. */
  lemma NextPrinted(start: seq<Byte>, args: seq<seq<Byte>>, i: nat)
    requires i < |args|
    ensures var gaps := SpaceGaps(|args|);
            start + Layout(args[i..], gaps[i..]) ==
            (if i == 0 then start else start + [SPACE]) + Repr(args[i]) + Layout(args[i + 1..], gaps[i + 1..])
  {
    var gaps := SpaceGaps(|args|);
    var rest := Layout(args[i + 1..], gaps[i + 1..]);
    assert args[i..][1..] == args[i + 1..] && gaps[i..][1..] == gaps[i + 1..];
    assert Layout(args[i..], gaps[i..]) == gaps[i] + (Repr(args[i]) + rest);
    ConcatAssociates(start, gaps[i], Repr(args[i]) + rest);
    ConcatAssociates(start + gaps[i], Repr(args[i]), rest);
    assert start + [] == start;
  }

  /** The printed forms of a list, with single spaces between. */
  method PrintAll(args: seq<seq<Byte>>) returns (s: Sds)
    ensures s.Valid() && fresh(s) && fresh(s.buf) && s.Contents() == JoinReprs(args)
  {
    ghost var gaps := SpaceGaps(|args|);
    s := new Sds();
    var i := 0;
    assert args[0..] == args && gaps[0..] == gaps && [] + JoinReprs(args) == JoinReprs(args);
    while i < |args|
      invariant 0 <= i <= |args| && s.Valid() && fresh(s) && fresh(s.buf)
      invariant s.Contents() + Layout(args[i..], gaps[i..]) == JoinReprs(args)
    {
      NextPrinted(s.Contents(), args, i);
      if i > 0 {
        s.CatLen([SPACE]);
      }
      s.CatRepr(args[i]);
      i := i + 1;
    }
    assert args[i..] == [] && Layout([], gaps[i..]) == [] && s.Contents() + [] == s.Contents();
  }

  /** Any list of byte strings, printed with sdscatrepr and single spaces between and parsed
      with sdssplitargs, comes back as it was. */
  method PrintAndSplit(args: seq<seq<Byte>>) returns (argv: seq<seq<Byte>>, argc: int)
    ensures argv == args && argc == |args|
  {
    var s := PrintAll(args);
    SplitJoined(args);
    LayoutHasNoNul(args, SpaceGaps(|args|));
    argv, argc := SplitArgsOf(s.buf[..s.len]);
  }
}
