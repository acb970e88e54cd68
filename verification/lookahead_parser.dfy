/** The lookahead parser of src/Parser.ts: cells (`A1`) and ranges
    (`A1:B2`) read from a tokenizer through a buffer of tokens that were
    looked at but not yet consumed.

    The tokenizer this parser drives is not part of this model: it is the
    endless token `stream` it produces, together with the number of tokens
    taken from it so far (`lexed`). The parser's logical position in the
    stream is `lexed - |tokens|`: the buffer holds exactly the tokens from
    there to `lexed`. */
module LookaheadParser {

  datatype Kind = IndentifierToken | NumberToken | ColonToken | Other(name: string)

  datatype Token = Token(kind: Kind, repr: string)

  /** A cell: the text of its column and of its row, "" when absent. */
  datatype CellNode = CellNode(column: string, row: string)

  datatype Node =
    | RangeNode(left: CellNode, right: CellNode)
    | Cell(cell: CellNode)
    | RawToken(token: Token)

  /** The first offset from `j` on at which `match` finds a kind that
      differs, or `|kinds|`. */
  function Mismatch(stream: nat -> Token, at: nat, kinds: seq<Kind>, j: nat): (m: nat)
    requires j <= |kinds|
    ensures j <= m <= |kinds|
    decreases |kinds| - j
  {
    if j == |kinds| then j
    else if stream(at + j).kind != kinds[j] then j
    else Mismatch(stream, at, kinds, j + 1)
  }

  /** How many tokens `match` has to look at: up to and including the
      first one that differs. */
  function Examined(stream: nat -> Token, at: nat, kinds: seq<Kind>): nat
  {
    var m := Mismatch(stream, at, kinds, 0);
    if m < |kinds| then m + 1 else m
  }

  /** The tokens from `at` on have the given kinds: `match` finds no
      kind that differs. */
  predicate KindsAhead(stream: nat -> Token, at: nat, kinds: seq<Kind>)
  {
    Mismatch(stream, at, kinds, 0) == |kinds|
  }

  /** The tokens ahead have the given kinds exactly when each one does,
      and otherwise the first mismatch is a token whose kind differs. */
  lemma KindsAheadMeans(stream: nat -> Token, at: nat, kinds: seq<Kind>)
    ensures KindsAhead(stream, at, kinds) <==> forall j | 0 <= j < |kinds| :: stream(at + j).kind == kinds[j]
    ensures !KindsAhead(stream, at, kinds) ==>
      stream(at + Mismatch(stream, at, kinds, 0)).kind != kinds[Mismatch(stream, at, kinds, 0)]
  {
    MismatchIsFirst(stream, at, kinds, 0);
    MismatchMeansDiffers(stream, at, kinds, 0);
  }

  /** From `j` on, there is no mismatch exactly when every kind matches. */
  lemma {:induction false} MismatchMeansDiffers(stream: nat -> Token, at: nat, kinds: seq<Kind>, j: nat)
    requires j <= |kinds|
    ensures Mismatch(stream, at, kinds, j) == |kinds| <==> forall i | j <= i < |kinds| :: stream(at + i).kind == kinds[i]
    ensures Mismatch(stream, at, kinds, j) < |kinds| ==>
      stream(at + Mismatch(stream, at, kinds, j)).kind != kinds[Mismatch(stream, at, kinds, j)]
    decreases |kinds| - j
  {
    if j < |kinds| && stream(at + j).kind == kinds[j] {
      MismatchMeansDiffers(stream, at, kinds, j + 1);
    }
  }

  /** Every kind before the first mismatch matches. */
  lemma {:induction false} MismatchIsFirst(stream: nat -> Token, at: nat, kinds: seq<Kind>, j: nat)
    requires j <= |kinds|
    ensures forall i | j <= i < Mismatch(stream, at, kinds, j) :: stream(at + i).kind == kinds[i]
    decreases |kinds| - j
  {
    if j < |kinds| && stream(at + j).kind == kinds[j] {
      MismatchIsFirst(stream, at, kinds, j + 1);
    }
  }

  /** Before the first mismatch, a kind differs exactly at the mismatch. */
  lemma MismatchAt(stream: nat -> Token, at: nat, kinds: seq<Kind>, j: nat)
    requires j < |kinds| && j <= Mismatch(stream, at, kinds, 0)
    ensures stream(at + j).kind != kinds[j] <==> Mismatch(stream, at, kinds, 0) == j
  {
    MismatchIsFirst(stream, at, kinds, 0);
    MismatchMeansDiffers(stream, at, kinds, 0);
  }

  function Max(a: nat, b: nat): nat { if a < b then b else a }

  /** `parseCell` from position `at`: an optional identifier for the
      column, then an optional number for the row. */
  function CellAt(stream: nat -> Token, at: nat): (r: (nat, CellNode))
    ensures at <= r.0 <= at + 2
    ensures forall i | at <= i < r.0 :: stream(i).kind == IndentifierToken || stream(i).kind == NumberToken
    ensures r.1.column != "" ==> stream(at).kind == IndentifierToken && r.1.column == stream(at).repr
    ensures r.1.row != "" ==> r.0 > at && stream(r.0 - 1).kind == NumberToken && r.1.row == stream(r.0 - 1).repr
  {
    var (afterColumn, column) := if stream(at).kind == IndentifierToken then (at + 1, stream(at).repr) else (at, "");
    var (afterRow, row) := if stream(afterColumn).kind == NumberToken then (afterColumn + 1, stream(afterColumn).repr) else (afterColumn, "");
    (afterRow, CellNode(column, row))
  }

  /** `parseRange` from position `at`: the node and the position after it. */
  function ParseAt(stream: nat -> Token, at: nat): (r: (nat, Node))
    ensures at < r.0 <= at + 5
    ensures r.1.RawToken? ==> r == (at + 1, RawToken(stream(at)))
  {
    if KindsAhead(stream, at, [IndentifierToken, NumberToken, ColonToken])
      || KindsAhead(stream, at, [IndentifierToken, ColonToken]) then
      var (colon, left) := CellAt(stream, at);
      var (next, right) := CellAt(stream, colon + 1);
      (next, RangeNode(left, right))
    else if KindsAhead(stream, at, [IndentifierToken, NumberToken]) then
      var (next, cell) := CellAt(stream, at);
      (next, Cell(cell))
    else
      (at + 1, RawToken(stream(at)))
  }

  /** What `parse` reads, stated on the tokens ahead: a range when an
      identifier, optionally a number, and a colon come first, with the
      colon consumed between its two cells; a cell for an identifier and a
      number; otherwise the single next token. */
  lemma ParseShapes(stream: nat -> Token, at: nat)
    ensures var (next, node) := ParseAt(stream, at);
      var s0, s1, s2 := stream(at), stream(at + 1), stream(at + 2);
      && (s0.kind == IndentifierToken && s1.kind == NumberToken && s2.kind == ColonToken ==>
            node == RangeNode(CellNode(s0.repr, s1.repr), CellAt(stream, at + 3).1) && next == CellAt(stream, at + 3).0)
      && (s0.kind == IndentifierToken && s1.kind == ColonToken ==>
            node == RangeNode(CellNode(s0.repr, ""), CellAt(stream, at + 2).1) && next == CellAt(stream, at + 2).0)
      && (s0.kind == IndentifierToken && s1.kind == NumberToken && s2.kind != ColonToken ==>
            node == Cell(CellNode(s0.repr, s1.repr)) && next == at + 2)
      && (!(s0.kind == IndentifierToken && s1.kind in {NumberToken, ColonToken}) ==>
            node == RawToken(s0) && next == at + 1)
  {
    var s0, s1, s2 := stream(at), stream(at + 1), stream(at + 2);
    if s0.kind == IndentifierToken && s1.kind == NumberToken && s2.kind == ColonToken {
      assert KindsAhead(stream, at, [IndentifierToken, NumberToken, ColonToken]);
    } else if s0.kind == IndentifierToken && s1.kind == ColonToken {
      assert KindsAhead(stream, at, [IndentifierToken, ColonToken]);
    } else if s0.kind == IndentifierToken && s1.kind == NumberToken {
      assert !KindsAhead(stream, at, [IndentifierToken, NumberToken, ColonToken]) by {
        assert stream(at + 2).kind != [IndentifierToken, NumberToken, ColonToken][2];
      }
      assert !KindsAhead(stream, at, [IndentifierToken, ColonToken]) by {
        assert stream(at + 1).kind != [IndentifierToken, ColonToken][1];
      }
      assert KindsAhead(stream, at, [IndentifierToken, NumberToken]);
    } else if s0.kind == IndentifierToken {
      assert stream(at + 1).kind != [IndentifierToken, NumberToken, ColonToken][1];
      assert stream(at + 1).kind != [IndentifierToken, ColonToken][1];
      assert stream(at + 1).kind != [IndentifierToken, NumberToken][1];
    } else {
      assert stream(at).kind != [IndentifierToken, NumberToken, ColonToken][0];
      assert stream(at).kind != [IndentifierToken, ColonToken][0];
      assert stream(at).kind != [IndentifierToken, NumberToken][0];
    }
  }

  class Parser {
    const stream: nat -> Token
    var tokens: seq<Token>
    var pointer: nat
    var lexed: nat

    /** Between calls `pointer` is 0 and the buffer holds the tokens from
        the logical position up to what the tokenizer has produced. */
    ghost predicate Valid()
      reads this
    {
      && pointer == 0
      && |tokens| <= lexed
      && forall i | 0 <= i < |tokens| :: tokens[i] == stream(lexed - |tokens| + i)
    }

    /** The position of the next token to consume. */
    function Consumed(): nat
      reads this
      requires |tokens| <= lexed
    {
      lexed - |tokens|
    }

    constructor (tokenizer: nat -> Token)
      ensures Valid() && stream == tokenizer && Consumed() == 0 && tokens == []
    {
      stream := tokenizer;
      tokens, pointer, lexed := [], 0, 0;
    }

    /** The tokenizer's `getNextToken`. */
    method Lex() returns (t: Token)
      modifies this`lexed
      ensures t == stream(old(lexed)) && lexed == old(lexed) + 1
    {
      t := stream(lexed);
      lexed := lexed + 1;
    }

    /** `match`: whether the tokens ahead have the given kinds. It lexes
        into the buffer only as far as it has to look, consumes nothing and
        restores `pointer`. */
    method Match(kinds: seq<Kind>) returns (r: bool)
      requires Valid()
      modifies this`tokens, this`pointer, this`lexed
      ensures Valid() && Consumed() == old(Consumed())
      ensures r <==> KindsAhead(stream, Consumed(), kinds)
      ensures |tokens| == Max(old(|tokens|), Examined(stream, Consumed(), kinds))
    {
      r := Compare(kinds, Consumed());
    }

    /** The loop of `match`, from the logical position `at`: each kind in
        turn is compared with the token under `pointer`, which is lexed
        into the buffer first when the buffer ends there. */
    method Compare(kinds: seq<Kind>, ghost at: nat) returns (r: bool)
      requires Buffered(at) && pointer == 0
      modifies this`tokens, this`pointer, this`lexed
      ensures Buffered(at) && pointer == 0
      ensures r <==> KindsAhead(stream, at, kinds)
      ensures |tokens| == Max(old(|tokens|), Examined(stream, at, kinds))
    {
      ghost var m := Mismatch(stream, at, kinds, 0);
      var start := pointer;
      for j := 0 to |kinds|
        invariant pointer == j <= m
        invariant Buffered(at)
        invariant |tokens| == Max(old(|tokens|), j)
      {
        Fill(at);
        MismatchAt(stream, at, kinds, j);
        if kinds[j] != tokens[pointer].kind {
          MismatchMeansDiffers(stream, at, kinds, 0);
          pointer := start;
          return false;
        }
        pointer := pointer + 1;
      }
      MismatchMeansDiffers(stream, at, kinds, 0);
      pointer := start;
      return true;
    }

    /** The buffer holds the tokens of the stream from position `at` up to
        what the tokenizer has produced. */
    ghost predicate Buffered(at: nat)
      reads this
    {
      && |tokens| <= lexed && lexed - |tokens| == at
      && forall i | 0 <= i < |tokens| :: tokens[i] == stream(at + i)
    }

    /** The first statement of the loop of `match`: a token is lexed into
        the buffer when `pointer` has reached its end. */
    method Fill(ghost at: nat)
      requires Buffered(at) && pointer <= |tokens|
      modifies this`tokens, this`lexed
      ensures Buffered(at) && pointer < |tokens|
      ensures |tokens| == Max(old(|tokens|), pointer + 1)
    {
      if pointer >= |tokens| {
        var t := Lex();
        tokens := tokens + [t];
      }
    }

    /** `parseToken`: the next token, from the front of the buffer when it
        holds one, and from the tokenizer otherwise. */
    method ParseToken() returns (t: Token)
      requires Valid()
      modifies this`tokens, this`lexed
      ensures Valid() && t == stream(old(Consumed())) && Consumed() == old(Consumed()) + 1
    {
      if |tokens| > 0 {
        t := tokens[0];
        tokens := tokens[1..];
        return;
      }
      t := Lex();
    }

    /** `parseColumn`: the identifier's text, or "" consuming nothing. */
    method ParseColumn() returns (repr: string)
      requires Valid()
      modifies this`tokens, this`pointer, this`lexed
      ensures Valid()
      ensures stream(old(Consumed())).kind == IndentifierToken ==>
        repr == stream(old(Consumed())).repr && Consumed() == old(Consumed()) + 1
      ensures stream(old(Consumed())).kind != IndentifierToken ==> repr == "" && Consumed() == old(Consumed())
    {
      var matched := Match([IndentifierToken]);
      assert matched <==> stream(Consumed() + 0).kind == [IndentifierToken][0];
      if matched {
        var t := ParseToken();
        repr := t.repr;
      } else {
        repr := "";
      }
    }

    /** `parseRow`: the number's text, or "" consuming nothing. */
    method ParseRow() returns (repr: string)
      requires Valid()
      modifies this`tokens, this`pointer, this`lexed
      ensures Valid()
      ensures stream(old(Consumed())).kind == NumberToken ==>
        repr == stream(old(Consumed())).repr && Consumed() == old(Consumed()) + 1
      ensures stream(old(Consumed())).kind != NumberToken ==> repr == "" && Consumed() == old(Consumed())
    {
      var matched := Match([NumberToken]);
      assert matched <==> stream(Consumed() + 0).kind == [NumberToken][0];
      if matched {
        var t := ParseToken();
        repr := t.repr;
      } else {
        repr := "";
      }
    }

    method ParseCell() returns (cell: CellNode)
      requires Valid()
      modifies this`tokens, this`pointer, this`lexed
      ensures Valid() && (Consumed(), cell) == CellAt(stream, old(Consumed()))
    {
      var column := ParseColumn();
      var row := ParseRow();
      cell := CellNode(column, row);
    }

    /** `parse`, that is `parseRange`. */
    method Parse() returns (node: Node)
      requires Valid()
      modifies this`tokens, this`pointer, this`lexed
      ensures Valid() && (Consumed(), node) == ParseAt(stream, old(Consumed()))
    {
      ghost var at := Consumed();
      var range := Match([IndentifierToken, NumberToken, ColonToken]);
      if !range {
        range := Match([IndentifierToken, ColonToken]);
      }
      if !range {
        range := Match([IndentifierToken, ColonToken]);
      }
      if range {
        var left := ParseCell();
        var colon := ParseToken();
        var right := ParseCell();
        node := RangeNode(left, right);
        return;
      }
      var cell := Match([IndentifierToken, NumberToken]);
      assert Consumed() == at;
      if cell {
        var c := ParseCell();
        node := Cell(c);
        return;
      }
      var t := ParseToken();
      node := RawToken(t);
    }
  }
}
