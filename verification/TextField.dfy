/** The editable text field: UTF-8 bytes and a byte cursor, against the characters
    to the left and to the right of the cursor. */
module TextFields {

  type Byte = b: int | 0 <= b < 256

  /** The UTF-8 encoding of one character (RFC 3629 section 3). */
  function Utf8(c: char): (bytes: seq<Byte>)
    ensures 1 <= |bytes| <= 4 && !IsContinuation(bytes[0])
    ensures forall i | 1 <= i < |bytes| :: IsContinuation(bytes[i])
    ensures LengthByLead(bytes[0]) == |bytes|
  {
    var n := c as int;
    if n < 0x80 then [n]
    else if n < 0x800 then [0xC0 + n / 0x40, 0x80 + n % 0x40]
    else if n < 0x1_0000 then [0xE0 + n / 0x1000, 0x80 + n / 0x40 % 0x40, 0x80 + n % 0x40]
    else [0xF0 + n / 0x4_0000, 0x80 + n / 0x1000 % 0x40, 0x80 + n / 0x40 % 0x40, 0x80 + n % 0x40]
  }

  predicate IsContinuation(b: Byte) {
    0x80 <= b < 0xC0
  }

  function LengthByLead(b: Byte): (n: nat)
    ensures 1 <= n <= 4
  {
    if b < 0x80 then 1 else if b < 0xE0 then 2 else if b < 0xF0 then 3 else 4
  }

  function Encode(s: string): seq<Byte> {
    if s == [] then [] else Utf8(s[0]) + Encode(s[1..])
  }

  lemma {:induction false} EncodeJoins(a: string, b: string)
    ensures Encode(a + b) == Encode(a) + Encode(b)
  {
    if a == [] {
      assert a + b == b;
    } else {
      assert (a + b)[1..] == a[1..] + b;
      EncodeJoins(a[1..], b);
    }
  }

  lemma EncodeLast(s: string)
    requires s != []
    ensures Encode(s) == Encode(s[..|s| - 1]) + Utf8(s[|s| - 1])
  {
    var last := s[|s| - 1..];
    assert s == s[..|s| - 1] + last;
    EncodeJoins(s[..|s| - 1], last);
    assert last[1..] == [];
    assert Encode(last) == Utf8(last[0]);
  }

  lemma Utf8Injective(c: char, d: char)
    requires Utf8(c) == Utf8(d)
    ensures c == d
  {
    var m, n := c as int, d as int;
    assert m % 0x40 == n % 0x40;
    assert |Utf8(c)| == |Utf8(d)|;
    if |Utf8(c)| == 2 {
      assert m / 0x40 == n / 0x40;
    } else if |Utf8(c)| == 3 {
      assert m / 0x1000 == n / 0x1000 && m / 0x40 % 0x40 == n / 0x40 % 0x40;
      DigitsOf64(m);
      DigitsOf64(n);
    } else if |Utf8(c)| == 4 {
      assert m / 0x4_0000 == n / 0x4_0000 && m / 0x1000 % 0x40 == n / 0x1000 % 0x40;
      assert m / 0x40 % 0x40 == n / 0x40 % 0x40;
      DigitsOf64(m);
      DigitsOf64(n);
    }
  }

  lemma DigitsOf64(n: nat)
    ensures n == n / 0x1000 * 0x1000 + n / 0x40 % 0x40 * 0x40 + n % 0x40
    ensures n / 0x1000 == n / 0x4_0000 * 0x40 + n / 0x1000 % 0x40
  {
    assert n / 0x40 / 0x40 == n / 0x1000;
    assert n / 0x1000 / 0x40 == n / 0x4_0000;
  }

  /** Different texts have different bytes. */
  lemma {:induction false} EncodeInjective(s: string, t: string)
    requires Encode(s) == Encode(t)
    ensures s == t
  {
    if s != [] && t != [] {
      var a, b := Utf8(s[0]), Utf8(t[0]);
      assert a[0] == Encode(s)[0] == Encode(t)[0] == b[0];
      assert a == Encode(s)[..|a|] == Encode(t)[..|b|] == b;
      Utf8Injective(s[0], t[0]);
      assert Encode(s)[|a|..] == Encode(s[1..]) && Encode(t)[|b|..] == Encode(t[1..]);
      EncodeInjective(s[1..], t[1..]);
      assert s == [s[0]] + s[1..] && t == [t[0]] + t[1..];
    }
  }

  /** Where slicing and inserting do not panic. */
  predicate IsBoundary(buf: seq<Byte>, i: nat) {
    i == 0 || i == |buf| || (i < |buf| && !IsContinuation(buf[i]))
  }

  /** Start of the last character before `i`: the nearest byte that is not a continuation. */
  function LastStart(buf: seq<Byte>, i: nat): (k: nat)
    requires 0 < i <= |buf|
    ensures k < i
  {
    if i == 1 || !IsContinuation(buf[i - 1]) then i - 1 else LastStart(buf, i - 1)
  }

  lemma {:induction false} LastStartFound(front: seq<Byte>, c: char, back: seq<Byte>, i: nat)
    requires |front| < i <= |front| + |Utf8(c)|
    ensures LastStart(front + Utf8(c) + back, i) == |front|
    decreases i
  {
    var buf := front + Utf8(c) + back;
    assert buf[i - 1] == Utf8(c)[i - 1 - |front|];
    if i - 1 == |front| {
    } else {
      LastStartFound(front, c, back, i - 1);
    }
  }

  // ---------- The field as a list of characters with a gap ----------

  datatype EditKey = Type(c: char) | Erase | GoLeft | GoRight

  /** The characters on either side of the cursor. */
  datatype Zipper = Zipper(left: string, right: string) {
    function Text(): string {
      left + right
    }

    function Press(k: EditKey): Zipper {
      match k
      case Type(c) => Zipper(left + [c], right)
      case Erase => if left == [] then this else Zipper(left[..|left| - 1], right)
      case GoLeft =>
        if left == [] then this else Zipper(left[..|left| - 1], [left[|left| - 1]] + right)
      case GoRight =>
        if right == [] then this else Zipper(left + [right[0]], right[1..])
    }

    function PressAll(keys: seq<EditKey>): Zipper {
      if keys == [] then this
      else PressAll(keys[..|keys| - 1]).Press(keys[|keys| - 1])
    }
  }

  const EMPTY_FIELD := Zipper([], [])

  predicate Moves(keys: seq<EditKey>) {
    forall k | k in keys :: k.GoLeft? || k.GoRight?
  }

  lemma MoveKeepsText(z: Zipper, k: EditKey)
    requires k.GoLeft? || k.GoRight?
    ensures z.Press(k).Text() == z.Text()
  {
    if k.GoLeft? && z.left != [] {
      var front, last := z.left[..|z.left| - 1], z.left[|z.left| - 1..];
      assert z.left == front + last && last == [z.left[|z.left| - 1]];
      assert (front + last) + z.right == front + (last + z.right);
    }
    if k.GoRight? && z.right != [] {
      var first := z.right[..1];
      assert z.right == first + z.right[1..] && first == [z.right[0]];
      assert (z.left + first) + z.right[1..] == z.left + (first + z.right[1..]);
    }
  }

  /** However the cursor is moved about, the text stays, and typing then erasing is no change. */
  lemma {:induction false} MovesKeepText(z: Zipper, keys: seq<EditKey>, c: char)
    requires Moves(keys)
    ensures z.PressAll(keys).Text() == z.Text()
    ensures z.PressAll(keys).Press(Type(c)).Press(Erase) == z.PressAll(keys)
  {
    if keys == [] {
    } else {
      MovesKeepText(z, keys[..|keys| - 1], c);
      MoveKeepsText(z.PressAll(keys[..|keys| - 1]), keys[|keys| - 1]);
    }
    var at := z.PressAll(keys);
    assert (at.left + [c])[..|at.left|] == at.left;
  }

  // ---------- The field as bytes ----------

  class TextField {
    var buf: seq<Byte>
    var cursor: nat

    ghost var gap: Zipper

    ghost predicate Valid()
      reads this
    {
      buf == Encode(gap.left) + Encode(gap.right) && cursor == |Encode(gap.left)|
    }

    constructor ()
      ensures Valid() && gap == EMPTY_FIELD
    {
      buf, cursor, gap := [], 0, EMPTY_FIELD;
    }

    /** The cursor is always where the text can be cut, and the bytes are the text's encoding. */
    lemma CursorOnBoundary()
      requires Valid()
      ensures cursor <= |buf| && IsBoundary(buf, cursor) && buf == Encode(gap.Text())
    {
      EncodeJoins(gap.left, gap.right);
      if gap.right != [] {
        assert buf[cursor] == Utf8(gap.right[0])[0];
      }
    }

    method InsertChar(c: char)
      requires Valid()
      modifies this
      ensures Valid() && gap == old(gap).Press(Type(c))
      ensures buf == old(buf[..cursor]) + Utf8(c) + old(buf[cursor..])
    {
      CursorOnBoundary();
      EncodeLast(gap.left + [c]);
      assert (gap.left + [c])[..|gap.left|] == gap.left;
      buf := buf[..cursor] + Utf8(c) + buf[cursor..];
      cursor := cursor + |Utf8(c)|;
      gap := gap.Press(Type(c));
    }

    method Backspace()
      requires Valid()
      modifies this
      ensures Valid() && gap == old(gap).Press(Erase)
    {
      CursorOnBoundary();
      if cursor == 0 {
        assert gap.left == [];
        return;
      }
      LastCharacter();
      var start := LastStart(buf, cursor);
      buf := buf[..start] + buf[start + LengthByLead(buf[start])..];
      cursor := start;
      gap := gap.Press(Erase);
    }

    method MoveLeft()
      requires Valid()
      modifies this
      ensures Valid() && buf == old(buf) && gap == old(gap).Press(GoLeft)
    {
      CursorOnBoundary();
      if cursor == 0 {
        assert gap.left == [];
        return;
      }
      LastCharacter();
      cursor := LastStart(buf, cursor);
      ghost var last := gap.left[|gap.left| - 1];
      assert ([last] + gap.right)[1..] == gap.right;
      gap := gap.Press(GoLeft);
    }

    method MoveRight()
      requires Valid()
      modifies this
      ensures Valid() && buf == old(buf) && gap == old(gap).Press(GoRight)
    {
      CursorOnBoundary();
      if cursor >= |buf| {
        assert gap.right == [];
        return;
      }
      ghost var next := gap.right[0];
      assert buf[cursor] == Utf8(next)[0];
      EncodeLast(gap.left + [next]);
      assert (gap.left + [next])[..|gap.left|] == gap.left;
      cursor := cursor + LengthByLead(buf[cursor]);
      gap := gap.Press(GoRight);
    }

    /** The character before the cursor, found by its bytes. */
    lemma LastCharacter()
      requires Valid() && cursor > 0
      ensures gap.left != [] && cursor <= |buf|
      ensures var start := LastStart(buf, cursor);
        var front, last := gap.left[..|gap.left| - 1], gap.left[|gap.left| - 1];
        && start == |Encode(front)| && start < |buf|
        && LengthByLead(buf[start]) == |Utf8(last)| && cursor == start + |Utf8(last)|
        && buf[..start] == Encode(front) && buf[cursor..] == Encode(gap.right)
        && buf == Encode(front) + (Utf8(last) + Encode(gap.right))
    {
      var last := gap.left[|gap.left| - 1];
      var front := Encode(gap.left[..|gap.left| - 1]);
      EncodeLast(gap.left);
      LastStartFound(front, last, Encode(gap.right), cursor);
      assert buf[|front|] == Utf8(last)[0];
    }

    /** Main result: after any keys, the bytes and the cursor show what the character list shows. */
    method Edit(keys: seq<EditKey>)
      requires Valid()
      modifies this
      ensures Valid() && gap == old(gap).PressAll(keys)
      ensures buf == Encode(gap.Text()) && IsBoundary(buf, cursor)
    {
      for i := 0 to |keys|
        invariant Valid() && gap == old(gap).PressAll(keys[..i])
      {
        match keys[i] {
          case Type(c) => InsertChar(c);
          case Erase => Backspace();
          case GoLeft => MoveLeft();
          case GoRight => MoveRight();
        }
        assert keys[..i + 1][..i] == keys[..i];
      }
      assert keys[..|keys|] == keys;
      CursorOnBoundary();
    }

    method InsertThenBackspace(c: char)
      requires Valid()
      modifies this
      ensures Valid() && buf == old(buf) && cursor == old(cursor) && gap == old(gap)
    {
      MovesKeepText(gap, [], c);
      InsertChar(c);
      Backspace();
    }
  }
}
