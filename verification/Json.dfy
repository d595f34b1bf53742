/** The JSON text that `json.Marshal` makes of a raw message: without the white space between tokens, and
    with the characters that HTML cares about escaped. It stands for the JSON value: formatting a
    snapshot (`MarshalIndent`), loading it and sending it to an executor all preserve this text. */
module Json {
  import opened Foundations

  datatype Where = Outside | Inside | Escaped

  function After(p: Where, c: byte): Where {
    match p
    case Outside => if c == 34 then Inside else Outside
    case Inside => if c == 92 then Escaped else if c == 34 then Outside else Inside
    case Escaped => Inside
  }

  predicate Space(c: byte) {
    c == 32 || c == 9 || c == 10 || c == 13
  }

  /** `<`, `>` and `&` become six characters, and white space between tokens none. */
  function Emit(p: Where, c: byte): Bytes {
    if p.Outside? && Space(c) then []
    else if c == 60 then [92, 117, 48, 48, 51, 99]
    else if c == 62 then [92, 117, 48, 48, 51, 101]
    else if c == 38 then [92, 117, 48, 48, 50, 54]
    else [c]
  }

  /** U+2028 or U+2029 within a string. */
  predicate Separator(b: Bytes, p: Where) {
    !p.Outside? && |b| >= 3 && b[0] == 0xE2 && b[1] == 0x80 && (b[2] == 0xA8 || b[2] == 0xA9)
  }

  function EmitSeparator(c: byte): Bytes {
    [92, 117, 50, 48, 50, if c == 0xA8 then 56 else 57]
  }

  function Compact(b: Bytes, p: Where): Bytes
    decreases |b|
  {
    if b == [] then []
    else if Separator(b, p) then EmitSeparator(b[2]) + Compact(b[3..], Inside)
    else Emit(p, b[0]) + Compact(b[1..], After(p, b[0]))
  }

  function Canonical(b: Bytes): Bytes {
    Compact(b, Outside)
  }

  // ---------------------------------------------------------------- canonical text stays as it is

  predicate Ordinary(p: Where, c: byte) {
    Emit(p, c) == [c] && c != 0xE2
  }

  lemma CompactOrdinary(c: byte, rest: Bytes, p: Where)
    requires Ordinary(p, c)
    ensures Compact([c] + rest, p) == [c] + Compact(rest, After(p, c))
  {
    assert ([c] + rest)[1..] == rest;
  }

  /** An escape passes unchanged, and leaves the place where it found it. */
  lemma CompactEscape(e: Bytes, rest: Bytes, p: Where)
    requires |e| == 6 && e[0] == 92 && e[1] == 117 && forall k :: 2 <= k < 6 ==> 48 <= e[k] <= 57 || 97 <= e[k] <= 101
    ensures Compact(e + rest, p) == e + Compact(rest, if p.Outside? then Outside else Inside)
  {
    hide Compact;
    assert e + rest == [e[0]] + ([e[1]] + ([e[2]] + ([e[3]] + ([e[4]] + ([e[5]] + rest)))));
    var q := After(p, 92);
    var r := After(q, 117);
    assert r == (if p.Outside? then Outside else Inside);
    CompactOrdinary(e[0], [e[1]] + ([e[2]] + ([e[3]] + ([e[4]] + ([e[5]] + rest)))), p);
    CompactOrdinary(e[1], [e[2]] + ([e[3]] + ([e[4]] + ([e[5]] + rest))), q);
    CompactOrdinary(e[2], [e[3]] + ([e[4]] + ([e[5]] + rest)), r);
    CompactOrdinary(e[3], [e[4]] + ([e[5]] + rest), r);
    CompactOrdinary(e[4], [e[5]] + rest, r);
    CompactOrdinary(e[5], rest, r);
  }

  /** Within a string, an octet above ASCII that comes out first went in first. */
  lemma FirstInside(b: Bytes)
    requires Compact(b, Inside) != [] && Compact(b, Inside)[0] >= 0x80
    ensures b != [] && b[0] == Compact(b, Inside)[0] && Compact(b, Inside) == [b[0]] + Compact(b[1..], Inside)
  {
  }

  /** Compacting creates no separator that was not there. */
  lemma NoNewSeparator(b: Bytes, p: Where)
    requires b != [] && b[0] == 0xE2 && !p.Outside? && !Separator(b, p)
    ensures !Separator([b[0]] + Compact(b[1..], Inside), p)
  {
    var rest := Compact(b[1..], Inside);
    if |rest| >= 2 && rest[0] == 0x80 && rest[1] >= 0x80 {
      FirstInside(b[1..]);
      assert Compact(b[2..], Inside) == rest[1..] && b[1..][1..] == b[2..];
      FirstInside(b[2..]);
    }
  }

  lemma CompactStep(b: Bytes, p: Where)
    requires b != []
    ensures Separator(b, p) ==> Compact(b, p) == EmitSeparator(b[2]) + Compact(b[3..], Inside)
    ensures !Separator(b, p) ==> Compact(b, p) == Emit(p, b[0]) + Compact(b[1..], After(p, b[0]))
  {
  }

  lemma {:induction false} CompactTwice(b: Bytes, p: Where)
    ensures Compact(Compact(b, p), p) == Compact(b, p)
    decreases |b|
  {
    if b != [] {
      CompactStep(b, p);
      if Separator(b, p) {
        hide Compact;
        CompactTwice(b[3..], Inside);
        CompactEscape(EmitSeparator(b[2]), Compact(b[3..], Inside), p);
      } else {
        CompactTwice(b[1..], After(p, b[0]));
        CompactAgain(b, p, Compact(b[1..], After(p, b[0])));
      }
    }
  }

  /** One more octet in front of a text that compacting leaves alone. */
  lemma CompactAgain(b: Bytes, p: Where, rest: Bytes)
    requires b != [] && !Separator(b, p) && rest == Compact(b[1..], After(p, b[0]))
    requires Compact(rest, After(p, b[0])) == rest
    ensures Compact(Emit(p, b[0]) + rest, p) == Emit(p, b[0]) + rest
  {
    var c := b[0];
    if p.Outside? && Space(c) {
      assert [] + rest == rest;
    } else if Ordinary(p, c) {
      hide Compact;
      CompactOrdinary(c, rest, p);
    } else if c == 0xE2 {
      if !p.Outside? {
        NoNewSeparator(b, p);
      }
      assert ([c] + rest)[1..] == rest;
      CompactStep([c] + rest, p);
      hide Compact;
    } else {
      hide Compact;
      CompactEscape(Emit(p, c), rest, p);
    }
  }

  /** Saving and loading a canonical text any number of times changes nothing. */
  lemma CanonicalStable(b: Bytes)
    ensures Canonical(Canonical(b)) == Canonical(b)
  {
    CompactTwice(b, Outside);
  }

  // ---------------------------------------------------------------- spacing is invisible

  /** The text without the white space between its tokens, and otherwise as it is. */
  function Dense(b: Bytes, p: Where): Bytes {
    if b == [] then []
    else (if p.Outside? && Space(b[0]) then [] else [b[0]]) + Dense(b[1..], After(p, b[0]))
  }

  /** Within a string nothing is dropped before the string ends. */
  lemma DenseKeeps(b: Bytes, p: Where)
    requires b != [] && !(p.Outside? && Space(b[0]))
    ensures Dense(b, p) == [b[0]] + Dense(b[1..], After(p, b[0]))
    ensures Dense(b, p) != [] && Dense(b, p)[0] == b[0] && Dense(b, p)[1..] == Dense(b[1..], After(p, b[0]))
  {
  }

  /** A separator stays one, and none appears. */
  lemma DenseSeparator(b: Bytes, p: Where)
    requires !p.Outside?
    ensures Separator(Dense(b, p), p) <==> Separator(b, p)
    ensures Separator(b, p) ==> Dense(b, p)[2] == b[2] && Dense(b, p)[3..] == Dense(b[3..], Inside)
  {
    hide Dense;
    if b == [] {
      assert Dense(b, p) == [] by {
        EmptyDense(p);
      }
    } else {
      DenseKeeps(b, p);
      if b[0] == 0xE2 {
        DenseSecond(b[1..]);
      }
    }
  }

  lemma EmptyDense(p: Where)
    ensures Dense([], p) == []
  {
  }

  /** The second and third octet of a separator, within a string. */
  lemma DenseSecond(b: Bytes)
    ensures var d := Dense(b, Inside);
            && (|d| >= 2 && d[0] == 0x80 && (d[1] == 0xA8 || d[1] == 0xA9)
                <==> |b| >= 2 && b[0] == 0x80 && (b[1] == 0xA8 || b[1] == 0xA9))
            && (|b| >= 2 && b[0] == 0x80 && (b[1] == 0xA8 || b[1] == 0xA9) ==>
                  d[1] == b[1] && d[2..] == Dense(b[2..], Inside))
  {
    if b != [] {
      DenseKeeps(b, Inside);
      if b[0] == 0x80 && b[1..] != [] {
        DenseKeeps(b[1..], Inside);
        assert b[1..][1..] == b[2..];
      }
    }
  }

  lemma {:induction false} CompactDense(b: Bytes, p: Where)
    ensures Compact(Dense(b, p), p) == Compact(b, p)
    decreases |b|
  {
    if b != [] {
      var c, q := b[0], After(p, b[0]);
      if p.Outside? && Space(c) {
        CompactDense(b[1..], q);
        assert [] + Dense(b[1..], q) == Dense(b[1..], q);
        assert [] + Compact(b[1..], q) == Compact(b[1..], q);
      } else {
        DenseKeeps(b, p);
        if !p.Outside? {
          DenseSeparator(b, p);
        }
        hide Dense;
        if Separator(b, p) {
          CompactDense(b[3..], Inside);
        } else {
          CompactDense(b[1..], q);
        }
      }
    }
  }

  /** Nothing but the spacing and five characters is ever touched: a text without them comes out as it went
      in, and so does a literal, with the spaces in it. */
  lemma {:induction false} PlainKept(b: Bytes, p: Where)
    requires forall c <- b :: c != 60 && c != 62 && c != 38 && c != 0xE2
    ensures Compact(b, p) == Dense(b, p)
    ensures (forall c <- b :: !Space(c)) ==> Dense(b, p) == b
    decreases |b|
  {
    if b != [] {
      assert b == [b[0]] + b[1..];
      assert b[0] in b && forall c <- b[1..] :: c in b;
      PlainKept(b[1..], After(p, b[0]));
    }
  }

  lemma {:induction false} LiteralKept(text: Bytes)
    requires forall c <- text :: c != 34 && c != 92
    ensures Dense(text + [34], Inside) == text + [34] && Dense([34] + text + [34], Outside) == [34] + text + [34]
    decreases |text|
  {
    if text == [] {
      assert text + [34] == [34];
      assert [34][1..] == [];
      assert ([34] + text + [34])[1..] == [34];
    } else {
      assert text == [text[0]] + text[1..];
      assert text[0] in text && forall c <- text[1..] :: c in text;
      LiteralKept(text[1..]);
      assert (text + [34])[1..] == text[1..] + [34];
      assert text + [34] == [text[0]] + (text[1..] + [34]);
      assert ([34] + text + [34])[1..] == text + [34];
      assert [34] + text + [34] == [34] + (text + [34]);
    }
  }

  /** Two texts that differ only in the white space between their tokens, as by indentation, are one. */
  lemma SpacingInvisible(a: Bytes, b: Bytes)
    requires Dense(a, Outside) == Dense(b, Outside)
    ensures Canonical(a) == Canonical(b)
  {
    CompactDense(a, Outside);
    CompactDense(b, Outside);
  }
}
