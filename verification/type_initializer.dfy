/**
 A type's static initializer as it is accumulated while the type is built:
 either nothing has been contributed (`None`) or one byte code appender,
 possibly a compound of many contributions, runs (`Simple`).
 */
module TypeInitializers {
  import opened ByteCode
  import opened MethodPool

  datatype TypeInitializer = None | Simple(appender: Appender)

  /** The code the initializer runs, in order; nothing at all for `None`. */
  function Code(t: TypeInitializer): Appender
  {
    match t
    case None => []
    case Simple(a) => a
  }

  /** Whether anything was contributed: only `None` is undefined. */
  predicate IsDefined(t: TypeInitializer)
    ensures IsDefined(t) <==> t != None
  {
    match t
    case None => false
    case Simple(_) => true
  }

  /** The `None` singleton is undefined, and it is the only undefined initializer. */
  lemma NoneIsUndefined(t: TypeInitializer)
    ensures !IsDefined(None)
    ensures !IsDefined(t) ==> t == None
  {
  }

  /** A `Simple` initializer is defined whatever appender it holds, even one that emits nothing. */
  lemma SimpleIsDefined(appender: Appender)
    ensures IsDefined(Simple(appender))
  {
  }

  /**
   Expands the initializer with one more appender. The result is always
   defined, runs all earlier code unchanged and first, and the new appender
   after it.
   */
  function ExpandWith(t: TypeInitializer, appender: Appender): (r: TypeInitializer)
    ensures IsDefined(r)
    ensures Code(r) == Compound(Code(t), appender)
    ensures t == None ==> r == Simple(appender)
  {
    match t
    case None => Simple(appender)
    case Simple(existing) => Simple(Compound(existing, appender))
  }

  /** Expanding the undefined initializer is the same as creating a simple one directly. */
  lemma ExpandNoneIsSimple(appender: Appender)
    ensures ExpandWith(None, appender) == Simple(appender)
    ensures Code(ExpandWith(None, appender)) == appender
  {
  }

  /** Two contributions of one block each run after the existing code, in the order they were made. */
  lemma ExpandTwice(t: TypeInitializer, b1: Block, b2: Block)
    ensures IsDefined(ExpandWith(ExpandWith(t, [b1]), [b2]))
    ensures Code(ExpandWith(ExpandWith(t, [b1]), [b2])) == Code(t) + [b1, b2]
  {
  }

  /** The initializer after every contributor in `contributions` expanded it, in list order. */
  function ExpandAll(t: TypeInitializer, contributions: seq<Appender>): (r: TypeInitializer)
    ensures Code(r) == Compound(Code(t), Concat(contributions))
    ensures IsDefined(r) <==> IsDefined(t) || |contributions| > 0
    decreases |contributions|
  {
    if contributions == [] then t
    else
      var first := ExpandWith(t, contributions[0]);
      var r := ExpandAll(first, contributions[1..]);
      assert Concat(contributions) == contributions[0] + Concat(contributions[1..]);
      assert Code(r) == (Code(t) + contributions[0]) + Concat(contributions[1..]);
      r
  }

  /** Contributing in two batches is the same as contributing everything in one. */
  lemma {:induction false} ExpandAllSplit(t: TypeInitializer, xs: seq<Appender>, ys: seq<Appender>)
    ensures ExpandAll(t, xs + ys) == ExpandAll(ExpandAll(t, xs), ys)
    decreases |xs|
  {
    if xs == [] {
      assert xs + ys == ys;
    } else {
      assert (xs + ys)[0] == xs[0];
      assert (xs + ys)[1..] == xs[1..] + ys;
      ExpandAllSplit(ExpandWith(t, xs[0]), xs[1..], ys);
    }
  }

  /** Later contributions never drop earlier code: the code before them is a prefix of the code after. */
  lemma ExpandAllKeepsEarlier(t: TypeInitializer, contributions: seq<Appender>, k: nat)
    requires k <= |contributions|
    ensures Code(ExpandAll(t, contributions[..k])) <= Code(ExpandAll(t, contributions))
  {
    var xs := contributions[..k];
    var ys := contributions[k..];
    assert contributions == xs + ys;
    ExpandAllSplit(t, xs, ys);
  }

  /** Every block of every contribution is in the final initializer's code. */
  lemma ExpandAllRunsEveryContribution(t: TypeInitializer, contributions: seq<Appender>, k: nat, b: Block)
    requires k < |contributions|
    requires b in contributions[k]
    ensures b in Code(ExpandAll(t, contributions))
  {
    ConcatContains(contributions, k, b);
  }

  /** Contributions of single blocks run exactly those blocks, in registration order, after the existing code. */
  lemma ExpandAllBlocks(t: TypeInitializer, blocks: seq<Block>)
    ensures Code(ExpandAll(t, seq(|blocks|, i requires 0 <= i < |blocks| => [blocks[i]]))) == Code(t) + blocks
  {
    ConcatSingletons(blocks);
  }

  /**
   Wraps a method pool record so that it first runs this initializer's code.
   `None` returns the record itself; a defined initializer's code runs before
   the record's own code and the original body is kept.
   */
  function Wrap(t: TypeInitializer, record: Record): (r: Record)
    ensures t == None ==> r == record
    ensures r.body == record.body
    ensures r.prefix == Compound(Code(t), record.prefix)
  {
    match t
    case None => record
    case Simple(a) => Prepend(record, a)
  }

  /** Wrapping with the undefined initializer hands back the very record it was given. */
  lemma WrapNoneIsIdentity(record: Record)
    ensures Wrap(None, record) == record
  {
  }

  /** Expanding and then wrapping equals wrapping a record that the new appender was prepended to. */
  lemma WrapAfterExpand(t: TypeInitializer, appender: Appender, record: Record)
    ensures Wrap(ExpandWith(t, appender), record) == Wrap(t, Prepend(record, appender))
  {
  }

  /**
   Applies the initializer as a byte code appender, where `run` is what
   applying an appender reports: `None` reports a zero size, `Simple`
   reports exactly what its appender reports.
   */
  function Apply(t: TypeInitializer, run: Appender -> Size): (s: Size)
    ensures !IsDefined(t) ==> s == Zero
    ensures IsDefined(t) ==> s == run(Code(t))
  {
    match t
    case None => Size(0, 0)
    case Simple(a) => run(a)
  }

  /** The undefined initializer emits nothing and needs neither stack nor local variables. */
  lemma ApplyNoneIsZero(run: Appender -> Size)
    ensures Apply(None, run) == Size(0, 0)
  {
  }

  /** When applying no code reports a zero size, every initializer reports what its code reports. */
  lemma ApplyIsApplyOfCode(t: TypeInitializer, run: Appender -> Size)
    requires run([]) == Zero
    ensures Apply(t, run) == run(Code(t))
  {
  }

  /**
   Equality as `Simple.equals` defines it: a `Simple` equals another `Simple`
   with an equal appender; the `None` enum constant equals only itself.
   */
  predicate Equals(t: TypeInitializer, other: TypeInitializer)
    ensures Equals(t, other) <==> t == other
  {
    match t
    case None => other.None?
    case Simple(a) => other.Simple? && a == other.appender
  }

  /** `Simple.equals` holds exactly between equal values, and between two `Simple` exactly when their appenders are equal. */
  lemma EqualsIsValueEquality(t: TypeInitializer, other: TypeInitializer)
    ensures Equals(t, other) <==> t == other
    ensures forall a: Appender, b: Appender :: Equals(Simple(a), Simple(b)) <==> a == b
  {
  }
}
