# am-rs core, modelled in Dafny

This project models the logic of the am-rs bare-metal RISC-V workspace and
proves properties of that model. The workspace has runtime crates for the
NEMU, QEMU and Spike platforms, build helpers and sample programs. The
modelled parts are:

- **The MNIST classifier's integer forward pass** (`inference.dfy`, module
  `Inference`).
  - The pixel quantiser.
  - The scaled int8 matrix-vector product, with an i32 accumulator, an i64
    product, `>> 16` and the truncating cast to i32.
  - The dynamic-shift re-quantiser to i8, the in-place ReLU and the argmax.
  - The 784 -> 256 -> 128 -> 10 pipeline that composes them.
- **The vector test program** (`vector_ops.dfy`, module `VectorOps`):
  - in-place vector add, dot product and the n x n row-major matrix product;
  - the expected values its unit tests assert.
- **The runtime's line reader** (`stdin.dfy`, module `Io`).
  - `Stdin::read`, `Stdin::try_getc` and `Stdin::read_line`.
  - These work over the sequence of bytes the console will deliver.
- **The QEMU critical section** (`critical_section.dfy`, module
  `CriticalSection`).
  - It has a nesting counter and the MIE bit of `mstatus`.
  - It is modelled both as a state machine and as a class whose
    `Acquire`/`Release` methods update the two fields.
- **The shared build helper** (`build_helper.dfy`, module `BuildHelper`):
  - `Platform::fmt`, `Platform::from_str` and `get_platform`;
  - the target prefix, linker-script name and linker-script path derivation of
    `link_helper`, with its panics as errors.
- **The runtime crate's build script** (`runtime_build.dfy`, module
  `RuntimeBuild`): the enabled-platform filter and the 0 / 1 / many decision.
- **The MNIST crate's build script** (`mnist_build.dfy`, module `MnistBuild`).
  - It selects the `.bin` test images and sorts their names in place.
  - It generates the text of `embedded_images.rs`: the image byte arrays, the
    names and the count.

Shared pieces:
- `machine_ints.dfy` (`MachineInts`): the Rust integer types, the arithmetic
  shift, `clamp`, the `as i32` cast and dot-product facts.
- `text.dfy` (`Text`): ASCII case mapping, `split_once`, `split`, `join` and
  decimal rendering.
- `wrappers.dfy` (`Wrappers`): `Option` and `Result`.

Environment variables are `Option<string>` inputs (None when unset). The
set of defined feature variables is a `set<string>`. The files on disk are
a set of paths, or a map from name to contents. A directory listing is a
sequence of entries. The `cargo:` and `stderr` lines a script prints are
returned as strings. A panic or `process::exit` is an explicit outcome.
Console input is the `input` field of `Io.Stdin`.

Where a comment in the source and its code disagree, the model follows the
code:
- The quantiser's doc comment gives `(input * 257 - 32768) >> 8`. The code
  computes `((p / 255.0) * 127.0) as i32`, which maps 0 to 0 and 255 to 127.
- The pipeline's comments speak of ReLU6. `relu_int8` only clears negative
  entries.
- `read_line`'s doc comment says the count excludes the newline. The code
  counts the terminator too, and after `\r` it swallows any byte that has
  already arrived.

One behaviour of the source is kept as written: the MNIST build script skips
a `.bin` file that cannot be opened or read when it writes
`EMBEDDED_TEST_IMAGES`, but still names and counts it, so
`EMBEDDED_TEST_IMAGE_COUNT` can then exceed the array's length.
ReadableCount states that the two agree exactly when every file can be read.

## Model

| member | source | states |
|---|---|---|
| MachineInts.Clamp | bin/others/mnist/src/inference.rs:106 | `clamp(lo, hi)` lands in [lo, hi] and leaves a value already inside unchanged |
| MachineInts.WrapI32 | bin/others/mnist/src/inference.rs:52-54 | the `as i32` cast gives an i32 congruent to its operand modulo 2^32, and is the identity on i32 values |
| MachineInts.Asr | bin/others/mnist/src/inference.rs:52 | definition of the arithmetic right shift `>>` on signed integers; its contract is stated by AsrIsDivision, AsrStep, AsrSign and AsrMonotone |
| MachineInts.AsrIsDivision | bin/others/mnist/src/inference.rs:52 | an arithmetic right shift by s is floor division by 2^s, for negative operands too |
| MachineInts.AsrStep | bin/others/mnist/src/inference.rs:98-101 | shifting by one more place after a shift by s is the shift by s + 1, as `max_val >>= 1` accumulates |
| MachineInts.AsrSign | bin/others/mnist/src/inference.rs:106 | the shift keeps the sign of its operand |
| MachineInts.AsrMonotone | bin/others/mnist/src/inference.rs:106 | the shift is monotone in its operand |
| MachineInts.DotPrefix | bin/others/mnist/src/inference.rs:46-49 | definition of the `sum +=` accumulator over the first n terms; its contract is stated by DotPrefixZero, DotPrefixBound and DotPrefixNonnegGrows |
| MachineInts.DotPrefixZero | bin/others/mnist/src/inference.rs:46-49 | an accumulated dot product with an all-zero operand is 0 |
| MachineInts.DotPrefixBound | bin/others/mnist/src/inference.rs:46-49 | n terms bounded by X and Y in magnitude sum to at most n*X*Y in magnitude |
| MachineInts.DotPrefixNonnegGrows | bin/test/vector/src/main.rs:15-18 | with unsigned operands every partial sum and every term is at most the total, so a total that fits u32 means no step overflows |
| VectorOps.VectorAdd | bin/test/vector/src/main.rs:8-12 | c[i] == a[i] + b[i] for i < a.len(); every later entry of c is unchanged |
| VectorOps.VectorDot | bin/test/vector/src/main.rs:14-20 | the result is the sum of a[i]*b[i] over i < a.len(), and 0 for an empty a |
| VectorOps.RowsBelow | bin/test/vector/src/main.rs:23-29 | every flat index i*n+j of the first m rows lies before row m, so rows never overlap |
| VectorOps.FlatIndex | bin/test/vector/src/main.rs:27 | definition of the row-major index i*n+j; its contract is stated by RowsBelow and MatrixMult |
| VectorOps.ProductEntry | bin/test/vector/src/main.rs:26-28 | definition of the (i, j) entry of the n x n product; its contract is stated by EntrySumIsProductEntry, RowColumnDot and MatrixMult |
| VectorOps.EntrySum | bin/test/vector/src/main.rs:26-27 | definition of the innermost running sum; its contract is stated by EntrySumIsProductEntry, EntrySumMonotone and RowColumnDot |
| VectorOps.EntrySumIsProductEntry | bin/test/vector/src/main.rs:26-28 | the running sum over a[i*n+k]*b[k*n+j] is the dot product of row i of a and column j of b |
| VectorOps.EntrySumMonotone | bin/test/vector/src/main.rs:26-28 | the running sum never decreases, so an entry that fits u32 never overflows midway |
| VectorOps.RowColumnDot | bin/test/vector/src/main.rs:25-28 | the innermost loop's sum is product entry (i, j) |
| VectorOps.MatrixRow | bin/test/vector/src/main.rs:24-30 | row i of c receives the product's row i; every other entry of c is unchanged |
| VectorOps.MatrixMult | bin/test/vector/src/main.rs:22-32 | c[i*n+j] is product entry (i, j) for all i, j < n; entries at n*n and beyond are unchanged |
| VectorOps.TestVectorAdd | bin/test/vector/src/main.rs:57-66 | [1,2,3,4] + [5,6,7,8] is [6,8,10,12] |
| VectorOps.TestVectorDot | bin/test/vector/src/main.rs:68-76 | the dot product of [1,2,3,4] and [5,6,7,8] is 70 |
| VectorOps.ExampleProductEntries | bin/test/vector/src/main.rs:78-88 | the four entries of [[1,2],[3,4]] times [[5,6],[7,8]] are 19, 22, 43 and 50 |
| VectorOps.TestMatrixMult | bin/test/vector/src/main.rs:78-88 | the 2 x 2 product written into c is [19,22,43,50] |
| Inference.QuantizePixel | bin/others/mnist/src/inference.rs:11-27 | a pixel quantises to floor(p*127/255), which lies in [0,127]; the clamp never applies |
| Inference.NormalizeAndQuantizeInput | bin/others/mnist/src/inference.rs:8-30 | same length as the input, each entry floor(p*127/255) in [0,127] |
| Inference.QuantizeMonotone | bin/others/mnist/src/inference.rs:11-27 | a brighter pixel never quantises lower |
| Inference.QuantizeFixedPoints | bin/others/mnist/src/inference.rs:11-27 | 0 maps to 0, 255 to 127 and 128 to 63 |
| Inference.ScaledProductFitsI64 | bin/others/mnist/src/inference.rs:52 | the i32 x i32 product always fits the i64 intermediate |
| Inference.ScaleQ16 | bin/others/mnist/src/inference.rs:52-54 | definition of the scaled, shifted and cast accumulator; its contract is stated by ScaledProductFitsI64 and LayerExactForModestScale |
| Inference.Layer | bin/others/mnist/src/inference.rs:37-58 | definition of the layer output; its contract is stated by Int8MatmulSymmetric |
| Inference.Int8MatmulSymmetric | bin/others/mnist/src/inference.rs:37-58 | output has ROWS entries; entry i is floor((sum_j w[i][j]*input[j]) * scale / 2^16) cast to i32; requires input.len() >= COLS and no accumulator overflow |
| Inference.AccumulatorFitsForInt8 | bin/others/mnist/src/inference.rs:46-49 | with i8 operands the i32 accumulator never overflows for up to 131071 columns, so the network's layers always meet the requirement above |
| Inference.LayerOfZero | bin/others/mnist/src/inference.rs:46-54 | an all-zero input vector or a zero scale makes every output 0 |
| Inference.LayerOfZeroWeights | bin/others/mnist/src/inference.rs:46-54 | all-zero weights make every output 0 |
| Inference.LayerExactForModestScale | bin/others/mnist/src/inference.rs:52-54 | for at most 784 columns and a scale of magnitude at most 2^22 the cast to i32 changes nothing and never gives i32::MIN |
| Inference.ReluInt8 | bin/others/mnist/src/inference.rs:65-71 | the buffer afterwards holds max(x, 0) of each old entry, in place, length unchanged |
| Inference.Relu | bin/others/mnist/src/inference.rs:65-71 | definition of ReLU on values; its contract is stated by ReluInt8 and ReluProperties |
| Inference.ReluProperties | bin/others/mnist/src/inference.rs:65-71 | no negative entry is left, non-negative entries are kept, negative ones become 0, and ReLU is idempotent |
| Inference.ArgmaxPrefix | bin/others/mnist/src/inference.rs:74-80 | among the first n entries `max_by` keeps a maximal one with no equal or larger entry after it |
| Inference.ArgmaxInt32 | bin/others/mnist/src/inference.rs:74-80 | the last index of a maximal element, and 0 for an empty slice |
| Inference.ArgmaxUnique | bin/others/mnist/src/inference.rs:74-80 | any maximal index with only smaller entries after it is the argmax, so the two properties determine it |
| Inference.ArgmaxOfConstant | bin/others/mnist/src/inference.rs:77 | on a constant non-empty vector the last index wins |
| Inference.ArgmaxExamples | bin/others/mnist/src/inference.rs:74-80 | [5,5,3] gives 1, the later of the tied maxima; the empty slice gives 0 |
| Inference.MaxAbs | bin/others/mnist/src/inference.rs:88 | the fold is at least the magnitude of every element |
| Inference.MaxAbsAtMost | bin/others/mnist/src/inference.rs:88 | a bound on every magnitude bounds the fold |
| Inference.MaxAbsAttained | bin/others/mnist/src/inference.rs:88 | the fold is 0 or the magnitude of some element |
| Inference.ShiftSearch | bin/others/mnist/src/inference.rs:96-101 | the loop stops at a shift of at most 31 at which max_abs >> shift <= 127, unless it reaches 31 |
| Inference.ShiftSearchIsLeast | bin/others/mnist/src/inference.rs:96-101 | no shift the loop stepped over brings max_abs into range |
| Inference.ShiftIsLeast | bin/others/mnist/src/inference.rs:95-101 | for i32 data the chosen shift is the least s with max_abs >> s <= 127, and it is at most 24 |
| Inference.ShiftAndClamp | bin/others/mnist/src/inference.rs:103-108 | definition of the shift-and-clamp map; its contract is stated by Int32ToInt8WithScaling and RequantizeIsExactShift |
| Inference.Requantize | bin/others/mnist/src/inference.rs:86-109 | definition of the re-quantiser, on input without i32::MIN; its contract is stated by Int32ToInt8WithScaling, RequantizeIsExactShift, RequantizeKeepsSign and RequantizeIdentity |
| Inference.Int32ToInt8WithScaling | bin/others/mnist/src/inference.rs:86-109 | the result is zeros when max_abs is 0, else every element shifted by the least shift and clamped; requires no i32::MIN, on which `abs` overflows |
| Inference.RequantizeIsExactShift | bin/others/mnist/src/inference.rs:95-106 | away from zero the result is exactly x >> shift for the least shift, which is at most 24; the clamp never cuts |
| Inference.RequantizeKeepsSign | bin/others/mnist/src/inference.rs:86-109 | same length, every entry in [-128,127], and each entry has the sign of its input |
| Inference.RequantizeIdentity | bin/others/mnist/src/inference.rs:91-106 | max_abs 0 (including the empty input) gives all zeros; max_abs <= 127 gives the input unchanged |
| Inference.Fc1Output | bin/others/mnist/src/inference.rs:129-133 | definition of the fc1 layer on the quantised image; its contract is stated by MnistInferencePureInt8 |
| Inference.Fc2Output | bin/others/mnist/src/inference.rs:136-143 | definition of the fc2 layer on the re-quantised, ReLU-ed fc1 output; its contract is stated by MnistInferencePureInt8 |
| Inference.Fc3Output | bin/others/mnist/src/inference.rs:146-153 | definition of the final scores; its contract is stated by MnistInferencePureInt8, ClassifyWithZeroFc3 and ClassifyOfConstantScores |
| Inference.HiddenLayersDefined | bin/others/mnist/src/inference.rs:129-149 | definition of "neither hidden layer produces i32::MIN"; its contract is stated by PipelineDefinedForModestScales |
| Inference.Classify | bin/others/mnist/src/inference.rs:119-157 | the predicted digit of the composed pipeline is always below 10; requires a 784-byte image and hidden layers without i32::MIN (HiddenLayersDefined) |
| Inference.MnistInferencePureInt8 | bin/others/mnist/src/inference.rs:119-157 | the straight-line forward pass, with in-place ReLU on both hidden buffers, returns the pipeline's digit, which is below 10; requires a 784-byte image and hidden layers without i32::MIN |
| Inference.PipelineDefinedForModestScales | bin/others/mnist/src/inference.rs:129-149 | with fc1 and fc2 scales of magnitude at most 2^22 the hidden layers never produce i32::MIN, so the pipeline's requirement holds |
| Inference.ClassifyWithZeroFc3 | bin/others/mnist/src/inference.rs:152-156 | all-zero fc3 weights give ten equal scores, and the prediction is 9; requires hidden layers without i32::MIN |
| Inference.ClassifyOfConstantScores | bin/others/mnist/src/inference.rs:152-156 | whenever the ten final scores are equal the prediction is 9; requires hidden layers without i32::MIN |
| Io.LineLength | platform/runtime/src/io/mod.rs:79-97 | the index of the first `\n` or `\r`: a terminator is there and none comes before it |
| Io.Chars | platform/runtime/src/io/mod.rs:99 | `as char` keeps each byte's value as the code point, and the length |
| Io.Consumed | platform/runtime/src/io/mod.rs:85-97 | definition of how many input bytes one `read_line` takes; its contract is stated by ReadLine, ReadFramedLine and CrLfConsumedTogether |
| Io.Stdin.Read | platform/runtime/src/io/mod.rs:47-52 | `read` takes the next byte from the input; it returns only when one is there |
| Io.Stdin.TryGetc | platform/runtime/src/io/mod.rs:61-66 | `try_getc` takes the next byte if it has arrived, otherwise returns None and consumes nothing |
| Io.Stdin.ReadLine | platform/runtime/src/io/mod.rs:78-103 | appends the bytes before the first terminator to the buffer's old contents, returns Ok(that length + 1), and leaves the input after the terminator and after the byte read following a `\r` |
| Io.LineHasNoTerminator | platform/runtime/src/io/mod.rs:85-99 | the appended text holds no `\n` or `\r`, and the count is its length plus one |
| Io.ReadFramedLine | platform/runtime/src/io/mod.rs:78-103 | a terminator-free line followed by a terminator and anything else is appended exactly; a `\r` also swallows the next byte when it has arrived |
| Io.CrLfConsumedTogether | platform/runtime/src/io/mod.rs:87-96 | after a `\r\n` line both bytes are consumed, so the next read starts after the `\n` |
| Io.ReadLineExample | platform/runtime/src/io/mod.rs:78-103 | "hi\r\n" then "ok\n": the read appends "hi" and returns 3, leaving "ok\n" (or "\nok\n" when the `\n` had not arrived) |
| CriticalSection.StepEffects | platform/runtimes/qemu/src/critical_section.rs:43-69 | acquire adds exactly one and clears MIE only from count 0; release removes exactly one and sets MIE only from count 1; nested steps leave MIE alone |
| CriticalSection.AcquireStep | platform/runtimes/qemu/src/critical_section.rs:43-55 | definition; its contract is stated by StepEffects |
| CriticalSection.ReleaseStep | platform/runtimes/qemu/src/critical_section.rs:57-69 | definition; its contract is stated by StepEffects |
| CriticalSection.Step | platform/runtimes/qemu/src/critical_section.rs:43-69 | definition, None on the release underflow; its contract is stated by StepEffects and StepPreservesConsistent |
| CriticalSection.Run | platform/runtimes/qemu/src/critical_section.rs:43-69 | definition of a sequence of steps; its contract is stated by RunDefined, RunPreservesConsistent and BalancedRunReturnsToIdle |
| CriticalSection.Consistent | platform/runtimes/qemu/src/critical_section.rs:43-69 | definition of "MIE clear exactly when count > 0"; its contract is stated by StepPreservesConsistent and RunPreservesConsistent |
| CriticalSection.StepPreservesConsistent | platform/runtimes/qemu/src/critical_section.rs:43-69 | each step keeps "MIE clear exactly when count > 0" |
| CriticalSection.RunDefined | platform/runtimes/qemu/src/critical_section.rs:57-60 | a run avoids the usize underflow exactly when no prefix releases more than it acquired, and then ends at start + acquires - releases |
| CriticalSection.RunPreservesConsistent | platform/runtimes/qemu/src/critical_section.rs:45-68 | every run from a consistent state ends consistent |
| CriticalSection.BalancedRunReturnsToIdle | platform/runtimes/qemu/src/critical_section.rs:43-69 | a balanced, well-nested run from idle returns to count 0 with MIE set |
| CriticalSection.ReleaseFromIdleUnderflows | platform/runtimes/qemu/src/critical_section.rs:59-60 | a release with nothing held underflows |
| CriticalSection.CriticalSectionCell.constructor | platform/runtimes/qemu/src/critical_section.rs:23-26 | the counter starts at 0 |
| CriticalSection.CriticalSectionCell.Acquire | platform/runtimes/qemu/src/critical_section.rs:43-55 | the cell's new counter and MIE bit are the acquire step of the old ones |
| CriticalSection.CriticalSectionCell.Release | platform/runtimes/qemu/src/critical_section.rs:57-69 | the cell's new counter and MIE bit are the release step of the old ones; requires count > 0 |
| Text.Lower | platform/build-helper/src/lib.rs:18 | `to_lowercase` keeps the length and maps each ASCII letter to lower case |
| Text.LowerChar | platform/build-helper/src/lib.rs:18 | definition; its contract is stated by Lower and CaseMappings |
| Text.UpperChar | platform/runtime/build.rs:11 | definition; its contract is stated by Upper and CaseMappings |
| Text.Upper | platform/runtime/build.rs:11 | `to_uppercase` keeps the length and maps each ASCII letter to upper case |
| Text.CaseMappings | platform/build-helper/src/lib.rs:17-23 | lower-casing is idempotent, and upper-cased text lower-cases to the same as the original |
| Text.IndexOf | platform/build-helper/src/lib.rs:38 | the first occurrence of the character, or None when it does not occur |
| Text.SplitOnceSpec | platform/build-helper/src/lib.rs:38-47 | `split_once(c)` fails exactly when c does not occur, and otherwise gives a c-free head and a tail that glue back to the string around c |
| Text.SplitOnce | platform/build-helper/src/lib.rs:38 | definition; its contract is stated by SplitOnceSpec |
| Text.Split | platform/build-helper/src/lib.rs:79 | definition; its contract is stated by FirstField, SplitJoin, JoinSplit and SplitPiecesFree |
| Text.Join | platform/runtime/build.rs:33 | definition; its contract is stated by SplitJoin and JoinSplit |
| Text.FirstField | platform/build-helper/src/lib.rs:79 | `split(c).next()` is the text before the first c, or the whole string when c does not occur |
| Text.SplitJoin | platform/build-helper/src/lib.rs:88 | splitting a path on '/' and joining the pieces with '/' gives the text back |
| Text.JoinSplit | platform/build-helper/src/lib.rs:88 | joining separator-free pieces and splitting the result gives the pieces back |
| Text.SplitPiecesFree | platform/build-helper/src/lib.rs:88 | no piece of a split holds the separator |
| Text.NatToString | bin/others/mnist/build.rs:68-71 | `{}` of a count is decimal digits with no leading zero |
| Text.NatToStringRoundTrip | bin/others/mnist/build.rs:68-71 | reading the decimal text back gives the count |
| BuildHelper.FromStrSpec | platform/build-helper/src/lib.rs:17-23 | `from_str` gives a platform exactly when the lower-cased text is its name, and None for every other text |
| BuildHelper.Fmt | platform/build-helper/src/lib.rs:9-14 | definition; its contract is stated by FromStrFmt |
| BuildHelper.FromStr | platform/build-helper/src/lib.rs:17-23 | definition; its contract is stated by FromStrSpec and FromStrFmt |
| BuildHelper.FromStrFmt | platform/build-helper/src/lib.rs:9-23 | `from_str(fmt(p))` and its upper-case form both give p |
| BuildHelper.NamesAfterFirstDashIsSplit | platform/build-helper/src/lib.rs:38-39 | the text following a first '-' is what `split_once('-')` returns as its second half |
| BuildHelper.GetPlatformSpec | platform/build-helper/src/lib.rs:28-62 | Qemu exactly when ARCH is set and its text after the first '-' is "qemu" in some case; unset ARCH gives Nemu with the rust-analyzer warning, and ARCH without '-' gives Nemu with the invalid-format warning |
| BuildHelper.GetPlatform | platform/build-helper/src/lib.rs:28-62 | definition; its contract is stated by GetPlatformSpec, GetPlatformQemu, GetPlatformUpperCase and GetPlatformSecondDash |
| BuildHelper.NoteLine | platform/build-helper/src/lib.rs:28-62 | definition of the warning line for each platform note; its contract is stated by LinkHelperLayout |
| BuildHelper.GetPlatformQemu | platform/build-helper/src/lib.rs:38-53 | "a-qemu" gives Qemu and reports "qemu" |
| BuildHelper.GetPlatformUpperCase | platform/build-helper/src/lib.rs:49-53 | "rv-QEMU" gives Qemu and reports the name as written |
| BuildHelper.GetPlatformSecondDash | platform/build-helper/src/lib.rs:38-61 | "a-qemu-x" names "qemu-x", which is unknown, so Nemu with the unknown-platform warning |
| BuildHelper.Normalise | platform/build-helper/src/lib.rs:88 | the components of a path hold no empty piece and no "." |
| BuildHelper.Parent | platform/build-helper/src/lib.rs:89-91 | `parent` exists exactly when there is a component, and drops only the last one |
| BuildHelper.ParsePath | platform/build-helper/src/lib.rs:88 | definition; its contract is stated by DisplayParse and WorkspaceRootLayout |
| BuildHelper.JoinPath | platform/build-helper/src/lib.rs:99-104 | definition; its contract is stated by JoinSimpleName and ScriptPathLayout |
| BuildHelper.Display | platform/build-helper/src/lib.rs:122 | definition; its contract is stated by DisplayParse and LinkHelperLayout |
| BuildHelper.DisplayParse | platform/build-helper/src/lib.rs:88-122 | an absolute path whose components are plain names prints as text that parses back to the same path |
| BuildHelper.TargetPrefix | platform/build-helper/src/lib.rs:79-85 | the target text before its first '-', or all of it when there is none; the "riscv32i" fallback is unreachable |
| BuildHelper.TargetPrefixExample | platform/build-helper/src/lib.rs:77-79 | "riscv32i-unknown-none-elf" gives "riscv32i" |
| BuildHelper.JoinSimpleName | platform/build-helper/src/lib.rs:104 | joining one plain name onto an absolute path adds exactly that component |
| BuildHelper.ScriptPathLayout | platform/build-helper/src/lib.rs:99-104 | the script path is the root followed by platform, runtimes, the platform's name, linker_scripts and the script name |
| BuildHelper.ScriptName | platform/build-helper/src/lib.rs:96 | definition; its contract is stated by ScriptNameIsComponent |
| BuildHelper.JoinComponent | platform/build-helper/src/lib.rs:99-103 | definition of `join` of one name; its contract is stated by ScriptPathLayout |
| BuildHelper.ScriptPath | platform/build-helper/src/lib.rs:99-104 | definition; its contract is stated by ScriptPathLayout |
| BuildHelper.WorkspaceRoot | platform/build-helper/src/lib.rs:88-92 | definition; its contract is stated by WorkspaceRootLayout |
| BuildHelper.WorkspaceRootLayout | platform/build-helper/src/lib.rs:88-92 | the workspace root is the manifest directory less its last two components, and is missing below two components |
| BuildHelper.ScriptNameIsComponent | platform/build-helper/src/lib.rs:96 | a target without '/' gives a script name `<prefix>_link.x` that is one plain component |
| BuildHelper.LinkHelperLayout | platform/build-helper/src/lib.rs:70-138 | for an absolute manifest directory of two or more components, `link_helper` succeeds exactly when `<root>/platform/runtimes/<platform>/linker_scripts/<prefix>_link.x` exists, printing the platform warning and then the six directives; otherwise it panics naming that path, after the warning |
| BuildHelper.Directives | platform/build-helper/src/lib.rs:121-138 | definition of the six lines printed on success; its contract is stated by LinkHelperLayout |
| BuildHelper.LinkHelper | platform/build-helper/src/lib.rs:70-138 | definition; its contract is stated by LinkHelperLayout and LinkHelperFailures |
| BuildHelper.LinkHelperFailures | platform/build-helper/src/lib.rs:75-92 | without TARGET, without CARGO_MANIFEST_DIR, or with a manifest directory of fewer than two components, `link_helper` panics with that error, after printing the platform warning |
| RuntimeBuild.UpperNames | platform/runtime/build.rs:11 | the feature variables of nemu, qemu and spike end in NEMU, QEMU and SPIKE |
| RuntimeBuild.FeatureVar | platform/runtime/build.rs:11 | definition; its contract is stated by UpperNames and EnabledMembers |
| RuntimeBuild.EnabledMembers | platform/runtime/build.rs:9-13 | a name is enabled exactly when it is a platform whose CARGO_FEATURE variable is set |
| RuntimeBuild.EnabledAmong | platform/runtime/build.rs:9-13 | definition; its contract is stated by EnabledMembers and EnabledInOrder |
| RuntimeBuild.Enabled | platform/runtime/build.rs:6-13 | definition; its contract is stated by EnabledPlatforms |
| RuntimeBuild.EnabledInOrder | platform/runtime/build.rs:9-13 | the enabled list is a subsequence of the platform list, in its order |
| RuntimeBuild.EnabledPlatforms | platform/runtime/build.rs:6-13 | spelled out: nemu, qemu and spike, each present exactly when its own upper-case variable is set |
| RuntimeBuild.MainDecision | platform/runtime/build.rs:16-40 | the build goes on exactly with one platform enabled, or none on the host target; none without TARGET panics; every exit has status 1; two or more always exit |
| RuntimeBuild.Main | platform/runtime/build.rs:16-48 | definition; its contract is stated by MainDecision, SinglePlatformReported, QemuOnly and TwoPlatformsRejected |
| RuntimeBuild.NoPlatformErrors | platform/runtime/build.rs:20-24 | definition of the no-platform error lines; its contract is stated by NoPlatformRejected |
| RuntimeBuild.ManyPlatformErrors | platform/runtime/build.rs:32-37 | definition of the multiple-platform error lines; its contract is stated by TwoPlatformsRejected |
| RuntimeBuild.UsingLine | platform/runtime/build.rs:29 | definition; its contract is stated by SinglePlatformReported and QemuOnly |
| RuntimeBuild.NoPlatformRejected | platform/runtime/build.rs:17-26 | no platform enabled on a target other than the host: exit 1 with the no-platform errors, whose second line lists "nemu, qemu, spike" |
| RuntimeBuild.SinglePlatformReported | platform/runtime/build.rs:28-30 | with one platform enabled, that platform (whose variable is set) is reported in the first line |
| RuntimeBuild.QemuOnly | platform/runtime/build.rs:28-48 | only CARGO_FEATURE_QEMU set: "Using platform: qemu" then the rerun lines, whatever the target |
| RuntimeBuild.TwoPlatformsRejected | platform/runtime/build.rs:31-39 | NEMU and SPIKE set: exit 1 with the multiple-platform errors listing "nemu, spike" |
| MnistBuild.LastIndexOf | bin/others/mnist/build.rs:22 | the last occurrence of a character, or None when it does not occur |
| MnistBuild.Extension | bin/others/mnist/build.rs:22 | definition of `Path::extension` on a file name; its contract is stated by ExtensionSpec and ExtensionExamples |
| MnistBuild.ExtensionSpec | bin/others/mnist/build.rs:22 | a name has an extension exactly when it is not ".." and has a '.' after its first character; the extension is the '.'-free text after the last '.' |
| MnistBuild.ExtensionExamples | bin/others/mnist/build.rs:22 | "7.bin" has extension "bin", "7.bin.bak" has "bak", and ".bin" and "bin" have none |
| MnistBuild.SelectedMembers | bin/others/mnist/build.rs:18-29 | a name is collected exactly when some readable entry with a Unicode name and extension "bin" carries it |
| MnistBuild.IsBinFile | bin/others/mnist/build.rs:20-23 | definition; its contract is stated by SelectedMembers |
| MnistBuild.Selected | bin/others/mnist/build.rs:18-29 | definition; its contract is stated by SelectedMembers and CollectBinFiles |
| MnistBuild.CollectBinFiles | bin/others/mnist/build.rs:16-29 | the names of the selected entries, in listing order, and none when the directory cannot be read |
| MnistBuild.LexTotal | bin/others/mnist/build.rs:32 | any two names are ordered one way or the other |
| MnistBuild.LexLe | bin/others/mnist/build.rs:32 | definition; its contract is stated by LexTotal, LexAntisymmetric, LexTransitive and LexReflexive |
| MnistBuild.LexAntisymmetric | bin/others/mnist/build.rs:32 | names ordered both ways are equal |
| MnistBuild.LexTransitive | bin/others/mnist/build.rs:32 | the order is transitive |
| MnistBuild.LexReflexive | bin/others/mnist/build.rs:32 | every name is at most itself |
| MnistBuild.InsertSorted | bin/others/mnist/build.rs:32 | inserting adds exactly the one name to the multiset |
| MnistBuild.InsertSortedKeepsOrder | bin/others/mnist/build.rs:32 | inserting into a sorted list keeps it sorted |
| MnistBuild.SortNames | bin/others/mnist/build.rs:32 | sorting is a permutation of the names |
| MnistBuild.SortNamesSorted | bin/others/mnist/build.rs:32 | the sorted names are in ascending order |
| MnistBuild.SortedUnique | bin/others/mnist/build.rs:32 | two sorted lists with the same names are equal, so the sorted result is determined |
| MnistBuild.InsertStep | bin/others/mnist/build.rs:32 | one insertion pass extends the sorted prefix by one and only permutes the array |
| MnistBuild.SortInPlace | bin/others/mnist/build.rs:32 | after `sort()` the array holds the sorted permutation of its old contents |
| MnistBuild.HexDigit | bin/others/mnist/build.rs:49 | definition of one lower-case digit of `{:02x}`; its contract is stated by ByteLiteralExamples and TokensDecode |
| MnistBuild.ByteLiteral | bin/others/mnist/build.rs:49 | every byte is written in six characters |
| MnistBuild.ByteLiteralExamples | bin/others/mnist/build.rs:49 | 0xab is written "0xab, " and 7 is written "0x07, " |
| MnistBuild.TokensDecode | bin/others/mnist/build.rs:48-50 | the literals of a chunk read back as its bytes, in order |
| MnistBuild.Tokens | bin/others/mnist/build.rs:48-50 | definition; its contract is stated by TokensDecode |
| MnistBuild.ChunkLine | bin/others/mnist/build.rs:47-51 | definition; its contract is stated by WriteChunk and LinesDecode |
| MnistBuild.Chunks | bin/others/mnist/build.rs:46 | definition; its contract is stated by ChunksPartition |
| MnistBuild.ChunksPartition | bin/others/mnist/build.rs:46 | `chunks(16)` covers the buffer in order, with 1 to 16 bytes per chunk and exactly 16 in all but the last |
| MnistBuild.LinesDecode | bin/others/mnist/build.rs:46-52 | the chunk lines of a buffer read back as the whole buffer |
| MnistBuild.ImageEntryRoundTrip | bin/others/mnist/build.rs:45-53 | reading the text between an entry's `&[` and `],` lines back gives the file's bytes in order |
| MnistBuild.ImageEntry | bin/others/mnist/build.rs:45-53 | definition; its contract is stated by ImageEntryRoundTrip and WriteImage |
| MnistBuild.ReadableCount | bin/others/mnist/build.rs:39-56 | there are never more image entries than names, and as many exactly when every file can be read |
| MnistBuild.Readable | bin/others/mnist/build.rs:39-56 | definition; its contract is stated by ReadableCount and WriteImages |
| MnistBuild.NameLine | bin/others/mnist/build.rs:63 | definition; its contract is stated by WriteNames |
| MnistBuild.CountLineRoundTrip | bin/others/mnist/build.rs:68-71 | the count line holds the number of names, in decimal, before the `;` |
| MnistBuild.CountLine | bin/others/mnist/build.rs:68-71 | definition; its contract is stated by CountLineRoundTrip |
| MnistBuild.OutputFraming | bin/others/mnist/build.rs:37-71 | the output opens with the EMBEDDED_TEST_IMAGES header and ends with the count line for the number of names |
| MnistBuild.EmbeddedImages | bin/others/mnist/build.rs:34-71 | definition; its contract is stated by OutputFraming, GenerateOutput and BuildEmbeddedImages |
| MnistBuild.WriteChunk | bin/others/mnist/build.rs:47-51 | one chunk's line: the indentation, then one literal per byte, then a line break |
| MnistBuild.WriteImage | bin/others/mnist/build.rs:45-53 | one file's entry: `&[`, one line per 16-byte chunk, `],` |
| MnistBuild.WriteImages | bin/others/mnist/build.rs:39-56 | the entries of the files that can be opened and read, in name order |
| MnistBuild.WriteNames | bin/others/mnist/build.rs:62-64 | one quoted line per name, in order |
| MnistBuild.GenerateOutput | bin/others/mnist/build.rs:34-71 | the whole generated text for the given sorted names and readable files |
| MnistBuild.BuildEmbeddedImages | bin/others/mnist/build.rs:16-71 | the generated text for the sorted selection of the directory listing |

## Left out

- The f32 arithmetic of the quantiser is replaced by its exact integer equivalent, floor(p * 127 / 255). The float expression truncates to that value for every byte.
- Inference.Int8MatmulSymmetric: the i32 accumulator's overflow is a precondition rather than a modelled wrap; a debug build panics there, and AccumulatorFitsForInt8 shows the network's layers always meet it.
- Inference.Int32ToInt8WithScaling, Inference.Requantize: an input holding i32::MIN, on which `abs` overflows, is excluded by the precondition NoI32Min, so MaxAbs, which uses the mathematical absolute value, is only applied where it agrees with the source. Fc2Output, Fc3Output, Classify and the lemmas about them inherit it as HiddenLayersDefined.
- Inference.Int8MatmulSymmetric, Inference.MnistInferencePureInt8: both are stated only under the source's own unchecked assumptions. The first requires `|input| >= COLS` and the second a 784-byte image (`|inputImage| >= INPUT_SIZE`); a shorter slice makes the indexing at inference.rs:48 panic in every build profile, and that panic is not modelled. MnistInferencePureInt8 also requires HiddenLayersDefined: neither hidden layer's output holds i32::MIN, on which the re-quantiser's `abs` overflows. PipelineDefinedForModestScales shows that fc1 and fc2 scales of magnitude at most 2^22 are enough for it.
- The `Inference` struct with its `new`, `test`, benchmark and performance-analysis methods is not part of this model. The weights and Q16 scales are parameters, the weight-blob parsing exists only as commented-out code, and the GUI is out of scope (user interface, floating point).
- The slices `[[i8; COLS]; ROWS]` are sequences, and their fixed sizes are requirements stated by IsMatrix.
- VectorOps: the u32 overflow of `+` and `*` (a panic in a debug build, a wrap in a release build) and an out-of-range index, on which every build panics, are preconditions rather than modelled panics. usize overflow of the index arithmetic `i * n + k` is not modelled.
- Io.Stdin.ReadLine: an input with no terminator, on which `read` blocks forever, is excluded by the precondition. Whether the byte after `\r` has already arrived is the parameter `ready`, since timing is not modelled.
- The platform functions `getc`, `try_getc` and `putc` are external. `Stdout` and the console MMIO are out of scope (device I/O).
- CriticalSection: the usize overflow the counter reaches after 2^XLEN acquires is not modelled. The CSR instructions are modelled only through their effect on MIE. The other `mstatus` bits and interrupt delivery are out of scope.
- The environment reads, `fs::read_dir`, `File::open`/`read_to_end`, `Path::exists`, the `println!`/`eprintln!` lines and `process::exit` are inputs and outcome values, as described above.
- BuildHelper.Display, BuildHelper.Parent: a path is modelled by its components, so repeated '/' and interior "." pieces are dropped, while Rust's `Path::display` reproduces the original text. Cargo always supplies an absolute `CARGO_MANIFEST_DIR`. When that text also has no repeated or trailing '/' and no "." piece, parsing recovers exactly the components it displays (DisplayParse), so the path LinkHelperLayout states is printed as the original text.
- BuildHelper.LinkHelper: the panic message's text is not modelled. A panic carries the platform warning printed before it and its cause, with the missing path when the script is absent.
- Text.Lower, Text.Upper: case mapping is ASCII only. `to_lowercase`/`to_uppercase` also map non-ASCII letters, which cannot change whether a text equals an ASCII platform name.
- RuntimeBuild.Main: the rerun lines mention NEMU and QEMU but not SPIKE, as in the source.
- MnistBuild: the generated names are written unescaped, as the source's `{}` does; a name containing `"` would give invalid Rust, which is not modelled.
- MnistBuild.BuildEmbeddedImages: the call to `link_helper`, `OUT_DIR`, the rerun line for the image directory and writing the file are left out. File contents are a map from name to bytes, where a missing name is a file that cannot be opened or read.
- MnistBuild.LexLe: `String` ordering is modelled as code-point lexicographic order, which is the same as the UTF-8 byte order Rust uses. The library's stable sort is modelled by an in-place insertion sort with the same result, since the sorted order is unique (SortedUnique).
