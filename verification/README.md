# Byte Buddy type initializer, modelled in Dafny

Byte Buddy builds a generated type's static initializer (`<clinit>`) from
contributions made by independent parts of the type's construction. The
`TypeInitializer` interface lets those parts work without overwriting each other:

- `None` means nothing has been contributed yet.
- `Simple(appender)` means some code has been contributed.
- `expandWith` always yields a defined initializer. The earlier code runs first and the new appender after it.
- `wrap` merges the initializer into the method pool record of the type initializer method. `None` hands the record back unchanged. `Simple` prepends its code to the record.
- `apply` runs the initializer as a byte code appender.
- `Drain.Default.apply` takes the pool's record for the type's synthetic type initializer method, wraps it and writes it.

The model is written in terms of values only:

- `bytecode.dfy`, module `ByteCode`: a byte code appender is the sequence of code blocks it emits. `Compound(a, b)` is `a` followed by `b`.
- `bytecode.dfy`, module `MethodPool`: a record is code to prepend plus an opaque original body. `Prepend` puts code in front of a record. A method pool is a total function from method descriptions to records.
- `type_initializer.dfy`, module `TypeInitializers`: the two-variant state and its operations. `Code(t)` is the code an initializer runs, which is nothing for `None`. `ExpandAll` is a fold of `ExpandWith` over a list of contributions, made in registration order.
- `drain.dfy`, module `Drain`: the default drain, whose `apply` is `Write` here. It returns the record, implementation context and annotation value filter factory that it would hand to the write path, instead of writing them.

The Javadoc of `expandWith` (TypeInitializer.java lines 23-30) says the initializer must already be defined. However, `None.expandWith` simply returns `Simple(appender)`. The model follows the code: expanding never requires a defined initializer.

## Model

| member | source | states |
|---|---|---|
| ByteCode.Compound | byte-buddy-dep/src/main/java/net/bytebuddy/dynamic/scaffold/TypeInitializer.java:187 | A compound runs all of its first appender, in order, and then all of its second. |
| ByteCode.ConcatAppend | byte-buddy-dep/src/main/java/net/bytebuddy/dynamic/scaffold/TypeInitializer.java:186-188 | Joining two batches of contributions equals the compound of joining each batch: no part is lost or moved. |
| ByteCode.ConcatContains | byte-buddy-dep/src/main/java/net/bytebuddy/dynamic/scaffold/TypeInitializer.java:186-188 | Every block of every contribution occurs in the joined code. |
| ByteCode.ConcatSingletons | byte-buddy-dep/src/main/java/net/bytebuddy/dynamic/scaffold/TypeInitializer.java:186-188 | Joining single-block contributions yields exactly those blocks, in order. |
| MethodPool.PrependEmpty | byte-buddy-dep/src/main/java/net/bytebuddy/dynamic/scaffold/TypeInitializer.java:191-193 | Prepending an appender that emits nothing leaves the record unchanged. |
| MethodPool.PrependTwice | byte-buddy-dep/src/main/java/net/bytebuddy/dynamic/scaffold/TypeInitializer.java:191-193 | Prepending twice equals prepending once the compound whose later-prepended code runs first. |
| TypeInitializers.IsDefined | byte-buddy-dep/src/main/java/net/bytebuddy/dynamic/scaffold/TypeInitializer.java:135-183 | `isDefined()` is false for `None` (line 137) and true for every `Simple` (line 182): exactly the non-`None` initializers are defined. |
| TypeInitializers.NoneIsUndefined | byte-buddy-dep/src/main/java/net/bytebuddy/dynamic/scaffold/TypeInitializer.java:136-138 | `None` is not defined, and it is the only initializer that is not defined. |
| TypeInitializers.SimpleIsDefined | byte-buddy-dep/src/main/java/net/bytebuddy/dynamic/scaffold/TypeInitializer.java:181-183 | `Simple` is defined for every appender, including one that emits nothing. |
| TypeInitializers.ExpandWith | byte-buddy-dep/src/main/java/net/bytebuddy/dynamic/scaffold/TypeInitializer.java:186-188 | The result is always defined. Its code is the old code followed by the new appender. From `None` the result is `Simple(appender)`. |
| TypeInitializers.ExpandNoneIsSimple | byte-buddy-dep/src/main/java/net/bytebuddy/dynamic/scaffold/TypeInitializer.java:141-143 | Expanding `None` is exactly `Simple` of the new appender, so it runs just that appender. |
| TypeInitializers.ExpandTwice | byte-buddy-dep/src/main/java/net/bytebuddy/dynamic/scaffold/TypeInitializer.java:186-188 | `s.expandWith([b1]).expandWith([b2])` is defined and runs `code(s) + [b1, b2]`. |
| TypeInitializers.ExpandAll | byte-buddy-dep/src/main/java/net/bytebuddy/dynamic/scaffold/TypeInitializer.java:186-188 | After any list of contributions, the code is the original code followed by every contribution in registration order. The result is defined iff the start was defined or something was contributed. |
| TypeInitializers.ExpandAllSplit | byte-buddy-dep/src/main/java/net/bytebuddy/dynamic/scaffold/TypeInitializer.java:186-188 | Contributing in two batches equals contributing everything at once. |
| TypeInitializers.ExpandAllKeepsEarlier | byte-buddy-dep/src/main/java/net/bytebuddy/dynamic/scaffold/TypeInitializer.java:186-188 | The code after the first k contributions is a prefix of the code after all of them. Later contributions never drop or reorder earlier code. |
| TypeInitializers.ExpandAllRunsEveryContribution | byte-buddy-dep/src/main/java/net/bytebuddy/dynamic/scaffold/TypeInitializer.java:186-188 | Every block of every contribution is in the final initializer's code. |
| TypeInitializers.ExpandAllBlocks | byte-buddy-dep/src/main/java/net/bytebuddy/dynamic/scaffold/TypeInitializer.java:186-188 | Single-block contributions run exactly those blocks, in registration order, after the existing code. |
| TypeInitializers.Wrap | byte-buddy-dep/src/main/java/net/bytebuddy/dynamic/scaffold/TypeInitializer.java:191-193 | The wrapped record keeps the original body. It runs the initializer's code before the record's own code. For `None` it is the record itself. |
| TypeInitializers.WrapNoneIsIdentity | byte-buddy-dep/src/main/java/net/bytebuddy/dynamic/scaffold/TypeInitializer.java:146-148 | Wrapping with `None` returns the given record unchanged. |
| TypeInitializers.WrapAfterExpand | byte-buddy-dep/src/main/java/net/bytebuddy/dynamic/scaffold/TypeInitializer.java:186-193 | Expanding with an appender and then wrapping equals wrapping a record that the appender was already prepended to. |
| TypeInitializers.Apply | byte-buddy-dep/src/main/java/net/bytebuddy/dynamic/scaffold/TypeInitializer.java:196-198 | A defined initializer reports exactly what applying its appender reports. An undefined one reports a zero size. |
| TypeInitializers.ApplyNoneIsZero | byte-buddy-dep/src/main/java/net/bytebuddy/dynamic/scaffold/TypeInitializer.java:151-153 | `None` reports `Size(0, 0)`, whatever applying an appender would report. |
| TypeInitializers.ApplyIsApplyOfCode | byte-buddy-dep/src/main/java/net/bytebuddy/dynamic/scaffold/TypeInitializer.java:150-198 | If applying empty code reports zero, then every initializer, `None` included, reports what its code reports. |
| TypeInitializers.Equals | byte-buddy-dep/src/main/java/net/bytebuddy/dynamic/scaffold/TypeInitializer.java:200-204 | `Simple.equals` holds exactly when both are `Simple` with equal appenders; the `None` constant equals only itself. |
| TypeInitializers.EqualsIsValueEquality | byte-buddy-dep/src/main/java/net/bytebuddy/dynamic/scaffold/TypeInitializer.java:200-204 | Two `Simple` values are equal iff their appenders are equal, where appenders are compared by the code they emit. |
| Drain.Write | byte-buddy-dep/src/main/java/net/bytebuddy/dynamic/scaffold/TypeInitializer.java:90-94 | The written record runs the initializer's code, then the code of the pool's type-initializer record, and keeps that record's body. With `None` it is exactly the pool's record. Context and filter factory pass through unchanged. |
| Drain.WriteReadsOnlyTypeInitializerRecord | byte-buddy-dep/src/main/java/net/bytebuddy/dynamic/scaffold/TypeInitializer.java:90-94 | Two method pools that agree on the instrumented type's type-initializer record produce the same output. |
| Drain.WriteAfterContributions | byte-buddy-dep/src/main/java/net/bytebuddy/dynamic/scaffold/TypeInitializer.java:90-94 | Starting from `None` with any contributions, the written record is the pool's record with all contributions prepended in registration order. |
| Drain.WriteWithoutContributions | byte-buddy-dep/src/main/java/net/bytebuddy/dynamic/scaffold/TypeInitializer.java:90-94 | With no contributions, the drain writes exactly the pool's record. |

## Left out

- ASM emission (`ClassVisitor`, `MethodVisitor`) and the record's own write path (`Record.apply`) are output. The drain returns what it would write instead. Errors raised while writing are therefore not modelled.
- `ByteCodeAppender.Compound`, `Size` merging, `MethodPool.target` and `Record.prepend` are defined outside `TypeInitializer.java`. They are modelled only as far as ordering goes: compound is concatenation, and prepend puts code in front of a record. The stack and local-variable footprint of a compound or of a prepended record (maximum or sum) is not modelled. No max-stack or max-locals claim is made about a compound or a wrapped record.
- TypeInitializers.Apply: applying an appender is a function parameter `run` from code to `Size`. The method visitor, implementation context and instrumented method it receives in the source are not modelled.
- `Drain.Default.equals`, `hashCode` and `toString`, and `toString`/`hashCode` of `None` and `Simple`, are Java object protocol with no behaviour here. Drain equality cannot be stated anyway, because a method pool is modelled as a function.
- The `Drain.Default` constructor is the `Default` datatype constructor. `TypeDescription`, `AnnotationValueFilter.Factory`, `Implementation.Context` and `MethodDescription.Latent.TypeInitializer` are opaque values that are only passed along or compared.
- Concurrency: every value is immutable.
- TypeInitializers.EqualsIsValueEquality: appenders are compared by the code they emit, so the identities this gives hold only in the model, not in Byte Buddy. In Java, `Simple.equals` compares appender objects with `ByteCodeAppender.equals`, and `expandWith` on a `Simple` always builds a new `Compound`. So `new Simple(empty).expandWith(b)` is not equal to `new Simple(b)`, while in the model `ExpandWith(Simple([]), b) == Simple(b)`.
- MethodPool.PrependEmpty: records are compared by the code they run and their body, so prepending an appender that emits nothing gives back the same record only in the model. In Byte Buddy, `Simple.wrap` always returns the new record from `record.prepend`; only `None.wrap` returns the record itself. For the same reason, `Wrap(Simple([]), r) == r` and the drain writes the same record for `Simple([])` as for `None` in the model, which Byte Buddy does not promise.
