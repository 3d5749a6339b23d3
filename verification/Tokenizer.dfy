/** The tokenizer that splits an object into entries and gives each its byte position. */
module Tokenizer {
  import opened Wrappers

  type Byte = b: nat | b < 256

  const NEWLINE: Byte := 10

  datatype ReadMethod = ByLine | Full

  /** An entry and its position: the number of bytes of the object read once it is complete. */
  datatype Token = Token(bytes: seq<Byte>, position: nat)

  /** How many bytes `read_until(b'\n')` consumes. */
  function LineLength(rest: seq<Byte>): (n: nat)
    ensures n <= |rest| && (rest != [] ==> n > 0)
  {
    if rest == [] then 0 else if rest[0] == NEWLINE then 1 else 1 + LineLength(rest[1..])
  }

  /** What is left to deliver when `rest` remains and `done` bytes were read before it. */
  function Remaining(m: ReadMethod, rest: seq<Byte>, done: nat): seq<Token>
    decreases |rest|
  {
    match m
    case Full => [Token(rest, done + |rest|)]
    case ByLine =>
      if rest == [] then []
      else
        var n := LineLength(rest);
        [Token(rest[..n], done + n)] + Remaining(m, rest[n..], done + n)
  }

  /** All entries of an object. */
  function Tokens(m: ReadMethod, contents: seq<Byte>): seq<Token> {
    Remaining(m, contents, 0)
  }

  function Concat(ts: seq<Token>): seq<Byte> {
    if ts == [] then [] else ts[0].bytes + Concat(ts[1..])
  }

  /** Nothing of the object is lost or repeated. */
  lemma {:induction false} RemainingIsSplit(m: ReadMethod, rest: seq<Byte>, done: nat)
    ensures Concat(Remaining(m, rest, done)) == rest
    decreases |rest|
  {
    var ts := Remaining(m, rest, done);
    match m
    case Full =>
      assert ts[1..] == [];
    case ByLine =>
      if rest != [] {
        var n := LineLength(rest);
        RemainingIsSplit(m, rest[n..], done + n);
        assert ts[1..] == Remaining(m, rest[n..], done + n);
      }
  }

  ghost predicate Increasing(ts: seq<Token>) {
    forall i, j :: 0 <= i < j < |ts| ==> ts[i].position < ts[j].position
  }

  /** Positions strictly grow, from beyond what was read before. */
  lemma {:induction false} RemainingIncreases(m: ReadMethod, rest: seq<Byte>, done: nat)
    ensures Increasing(Remaining(m, rest, done))
    ensures m.ByLine? ==> forall i :: 0 <= i < |Remaining(m, rest, done)| ==> Remaining(m, rest, done)[i].position > done
    decreases |rest|
  {
    if m.ByLine? && rest != [] {
      var n := LineLength(rest);
      RemainingIncreases(m, rest[n..], done + n);
      var tail := Remaining(m, rest[n..], done + n);
      assert Remaining(m, rest, done) == [Token(rest[..n], done + n)] + tail;
    }
  }

  /** The position of an entry is the number of bytes of the object up to its end. */
  lemma {:induction false} RemainingPositions(m: ReadMethod, rest: seq<Byte>, done: nat, k: nat)
    requires k < |Remaining(m, rest, done)|
    ensures Remaining(m, rest, done)[k].position == done + |Concat(Remaining(m, rest, done)[..k + 1])|
    decreases |rest|
  {
    var ts := Remaining(m, rest, done);
    match m
    case Full =>
      assert ts[..1] == ts && ts[1..] == [];
    case ByLine =>
      var n := LineLength(rest);
      var tail := Remaining(m, rest[n..], done + n);
      assert ts == [Token(rest[..n], done + n)] + tail;
      if k == 0 {
        assert ts[..1] == [ts[0]] && [ts[0]][1..] == [];
      } else {
        RemainingPositions(m, rest[n..], done + n, k - 1);
        assert ts[..k + 1][1..] == tail[..k];
      }
  }

  /** Entry `k` ends at its position: the entries up to it have that many bytes together. */
  lemma EntryPositions(m: ReadMethod, contents: seq<Byte>, k: nat)
    requires k < |Tokens(m, contents)|
    ensures Tokens(m, contents)[k].position == |Concat(Tokens(m, contents)[..k + 1])|
  {
    RemainingPositions(m, contents, 0, k);
  }

  ghost predicate IsLine(bytes: seq<Byte>) {
    bytes != [] && forall i :: 0 <= i < |bytes| - 1 ==> bytes[i] != NEWLINE
  }

  lemma {:induction false} LineIsMaximal(rest: seq<Byte>)
    requires rest != []
    ensures IsLine(rest[..LineLength(rest)])
    ensures LineLength(rest) < |rest| ==> rest[LineLength(rest) - 1] == NEWLINE
  {
    if rest[0] != NEWLINE && |rest| > 1 {
      LineIsMaximal(rest[1..]);
      var n := LineLength(rest);
      forall i | 0 <= i < n - 1 ensures rest[i] != NEWLINE {
        if i > 0 { assert rest[1..][..n - 1][i - 1] != NEWLINE; }
      }
    }
  }

  function CountToken(ts: seq<Token>, t: Token): nat {
    multiset(ts)[t]
  }

  lemma TokensIncrease(m: ReadMethod, contents: seq<Byte>)
    ensures Increasing(Tokens(m, contents))
  {
    RemainingIncreases(m, contents, 0);
  }

  lemma {:induction false} DistinctPositions(ts: seq<Token>, t: Token)
    requires Increasing(ts)
    ensures CountToken(ts, t) <= 1
  {
    if ts == [] {
    } else {
      DistinctPositions(ts[1..], t);
      assert ts == [ts[0]] + ts[1..];
      if ts[0] == t {
        assert t !in ts[1..] by {
          forall j | 0 <= j < |ts[1..]| ensures ts[1..][j] != t { assert ts[0].position < ts[j + 1].position; }
        }
      }
    }
  }

  /** Positions are distinct within an object, so no entry occurs twice. */
  lemma TokensAreDistinct(m: ReadMethod, contents: seq<Byte>, t: Token)
    ensures CountToken(Tokens(m, contents), t) <= 1
  {
    TokensIncrease(m, contents);
    DistinctPositions(Tokens(m, contents), t);
  }

  /** `read_until(b'\n')`. */
  method ReadUntilNewline(rest: seq<Byte>) returns (n: nat)
    ensures n == LineLength(rest)
  {
    n := 0;
    while n < |rest|
      invariant 0 <= n <= |rest|
      invariant LineLength(rest) == n + LineLength(rest[n..])
    {
      n := n + 1;
      if rest[n - 1] == NEWLINE { return; }
    }
  }

  class BufReaderTokenizer {
    const readMethod: ReadMethod
    var reader: Option<seq<Byte>>
    var currentBytesRead: nat

    /** The entries `next_entry` will still deliver. */
    ghost function Pending(): seq<Token>
      reads this
    {
      if reader.None? then [] else Remaining(readMethod, reader.value, currentBytesRead)
    }

    constructor (readMethod: ReadMethod)
      ensures this.readMethod == readMethod && Pending() == []
    {
      this.readMethod := readMethod;
      reader, currentBytesRead := None, 0;
    }

    method SetNewReader(contents: seq<Byte>)
      modifies this
      ensures Pending() == Tokens(readMethod, contents)
    {
      reader, currentBytesRead := Some(contents), 0;
    }

    method NextEntry() returns (entry: Option<Token>)
      modifies this
      ensures old(Pending()) == [] ==> entry.None? && Pending() == []
      ensures old(Pending()) != [] ==> entry == Some(old(Pending())[0]) && Pending() == old(Pending())[1..]
    {
      if reader.None? { return None; }
      var rest := reader.value;
      var len := if readMethod.Full? then |rest| else 0;
      if readMethod.ByLine? { len := ReadUntilNewline(rest); }
      if len > 0 || readMethod.Full? {
        currentBytesRead := currentBytesRead + len;
        reader := if readMethod.Full? then None else Some(rest[len..]);
        assert rest[..|rest|] == rest;
        return Some(Token(rest[..len], currentBytesRead));
      }
      reader := None;
      return None;
    }
  }
}
