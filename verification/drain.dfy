/**
 The default drain: when a type is finished, it takes the method pool's
 record for the type's synthetic type initializer, wraps it with the
 accumulated initializer and writes the wrapped record. Writing is output, so
 the drain here returns what it would write.
 */
module Drain {
  import opened ByteCode
  import opened MethodPool
  import opened TypeInitializers

  /** The implementation context and annotation value filter factory, passed through untouched. */
  datatype ImplementationContext = ImplementationContext(id: nat)
  datatype AnnotationValueFilterFactory = AnnotationValueFilterFactory(id: nat)

  /** A default drain for one instrumented type. */
  datatype Default = Default(
    instrumentedType: TypeDescription,
    methodPool: Pool,
    annotationValueFilterFactory: AnnotationValueFilterFactory)

  /** A record handed to the write path, together with what the write path is given alongside it. */
  datatype Emission = Emission(
    record: Record,
    context: ImplementationContext,
    annotationValueFilterFactory: AnnotationValueFilterFactory)

  /** The record the method pool holds for the instrumented type's type initializer. */
  function PoolRecord(drain: Default): Record
  {
    drain.methodPool.target(TypeInitializerOf(drain.instrumentedType))
  }

  /**
   The drain's `apply`, named after what it does: the written record runs the initializer's code first and
   then whatever the pool's type initializer record runs, keeping its original
   body; context and filter factory are passed on unchanged.
   */
  function Write(drain: Default, t: TypeInitializer, context: ImplementationContext): (e: Emission)
    ensures e.record.body == PoolRecord(drain).body
    ensures e.record.prefix == Compound(Code(t), PoolRecord(drain).prefix)
    ensures t == None ==> e.record == PoolRecord(drain)
    ensures e.context == context
    ensures e.annotationValueFilterFactory == drain.annotationValueFilterFactory
  {
    Emission(Wrap(t, PoolRecord(drain)), context, drain.annotationValueFilterFactory)
  }

  /** The drain consults the pool only for the type initializer of the instrumented type. */
  lemma WriteReadsOnlyTypeInitializerRecord(
    drain: Default, pool: Pool, t: TypeInitializer, context: ImplementationContext)
    requires pool.target(TypeInitializerOf(drain.instrumentedType)) == PoolRecord(drain)
    ensures Write(drain.(methodPool := pool), t, context) == Write(drain, t, context)
  {
  }

  /**
   A type built from nothing with the given contributions writes a type
   initializer that runs every contribution in registration order before the
   pool record's own code, and keeps the pool record's body.
   */
  lemma WriteAfterContributions(drain: Default, contributions: seq<Appender>, context: ImplementationContext)
    ensures Write(drain, ExpandAll(None, contributions), context).record
         == Prepend(PoolRecord(drain), Concat(contributions))
  {
  }

  /** Without contributions the drain writes exactly the pool's record. */
  lemma WriteWithoutContributions(drain: Default, context: ImplementationContext)
    ensures Write(drain, ExpandAll(None, []), context).record == PoolRecord(drain)
  {
  }
}
