/**
 The collaborators a type initializer is built from, reduced to what the type
 initializer observes of them:

 - a byte code appender is the ordered sequence of code blocks it emits, and a
   compound appender runs its parts one after the other;
 - applying an appender reports a `Size` (operand stack and local variable
   slots) that is computed elsewhere and enters the model as a function;
 - a method pool record is the code prepended to a method plus the method's
   original, opaque body, and a method pool maps method descriptions to records.
 */
module ByteCode {

  /** One block of emitted code, known only by its identity. */
  datatype Block = Block(id: nat)

  /** A byte code appender: the blocks it emits, in execution order. */
  type Appender = seq<Block>

  /** The size a byte code appender reports: operand stack and local variable slots. */
  datatype Size = Size(operandStackSize: nat, localVariableSize: nat)

  /** The size of code that needs neither stack nor local variables. */
  const Zero: Size := Size(0, 0)

  /** Compound of two appenders: every block of `first` runs, in order, before every block of `second`. */
  function Compound(first: Appender, second: Appender): (r: Appender)
    ensures |r| == |first| + |second|
    ensures r[..|first|] == first
    ensures r[|first|..] == second
  {
    first + second
  }

  /** Joins a list of appenders, the first one leading. */
  function Concat(parts: seq<Appender>): (r: Appender)
    decreases |parts|
  {
    if parts == [] then [] else Compound(parts[0], Concat(parts[1..]))
  }

  /** Joining two lists of appenders is the compound of their joins: no part is lost or moved. */
  lemma {:induction false} ConcatAppend(xs: seq<Appender>, ys: seq<Appender>)
    ensures Concat(xs + ys) == Compound(Concat(xs), Concat(ys))
    decreases |xs|
  {
    if xs == [] {
      assert xs + ys == ys;
    } else {
      assert (xs + ys)[1..] == xs[1..] + ys;
      ConcatAppend(xs[1..], ys);
    }
  }

  /** A block of any contributed appender occurs in the join of all of them. */
  lemma {:induction false} ConcatContains(parts: seq<Appender>, k: nat, b: Block)
    requires k < |parts|
    requires b in parts[k]
    ensures b in Concat(parts)
    decreases |parts|
  {
    if k > 0 {
      ConcatContains(parts[1..], k - 1, b);
    }
  }

  /** The join of single-block appenders is the sequence of those blocks. */
  lemma {:induction false} ConcatSingletons(blocks: seq<Block>)
    ensures Concat(seq(|blocks|, i requires 0 <= i < |blocks| => [blocks[i]])) == blocks
    decreases |blocks|
  {
    var parts := seq(|blocks|, i requires 0 <= i < |blocks| => [blocks[i]]);
    if blocks != [] {
      var rest := seq(|blocks| - 1, i requires 0 <= i < |blocks| - 1 => [blocks[1..][i]]);
      assert parts[1..] == rest;
      ConcatSingletons(blocks[1..]);
    }
  }
}

/**
 The method pool as far as the type initializer uses it: a record holds the
 code prepended to the method and the original body it was created with.
 */
module MethodPool {
  import opened ByteCode

  /** A type under construction, identified by name. */
  datatype TypeDescription = TypeDescription(name: string)

  /** A method description: the synthetic type initializer of a type, or any other method of it. */
  datatype MethodDescription =
    | TypeInitializerOf(declaringType: TypeDescription)
    | DeclaredMethod(declaringType: TypeDescription, name: string)

  /** The body a record was created with, which the type initializer never inspects. */
  datatype OriginalBody = OriginalBody(id: nat)

  /** A method pool record: code to run first, then the original body. */
  datatype Record = Record(prefix: Appender, body: OriginalBody)

  /** A method pool: the record to write for every method description. */
  datatype Pool = Pool(target: MethodDescription -> Record)

  /** The record that first runs `appender` and then everything `record` runs; the original body is kept. */
  function Prepend(record: Record, appender: Appender): (r: Record)
    ensures r.body == record.body
    ensures r.prefix == Compound(appender, record.prefix)
  {
    Record(appender + record.prefix, record.body)
  }

  /** Prepending nothing leaves a record unchanged. */
  lemma PrependEmpty(record: Record)
    ensures Prepend(record, []) == record
  {
  }

  /** Prepending twice is prepending the compound, the later prepended code first. */
  lemma PrependTwice(record: Record, first: Appender, second: Appender)
    ensures Prepend(Prepend(record, first), second) == Prepend(record, Compound(second, first))
  {
  }
}
