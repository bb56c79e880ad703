# compute-shade-rs core, modelled in Dafny

compute-shade-rs runs a GLSL compute shader over a window's swapchain images. This
project models the four pure pieces of logic inside its Vulkan plumbing and proves
properties about each of them.

- **GLSL declaration analyser** (`analysis.rs`). The model starts from a parsed
  syntax tree (`glsl.dfy`). It follows the code on:
  - reducing type qualifiers to properties (`layout_qualifiers.dfy`);
  - classifying global, variable and block declarations (`declarations.dfy`);
  - the fixed type-size table and the power-of-two alignment rule behind a block's
    byte size (`block_size.dfy`);
  - the top-level `analyze_shader` loop (`shader.dfy`).

  A negative integer literal makes the source panic in `usize::try_from(..).unwrap()`,
  and so does a field type missing from the size table. Both become preconditions. A
  three-valued `Status` (accepts, rejects, panics) is computed per syntax level. Every
  operation requires "does not panic" and ensures "fails exactly when rejected".
- **Binding-uniqueness check** (`descriptor_layout.dfy`). This is the scan in
  `DescriptorLayout::new`, the descriptor-to-layout-binding mapping, and the single
  creation call.
- **Multi-resource replication** (`multi_image.dfy`, `multi_buffer.dfy`, `registry.dfy`).
  It covers:
  - creating N units all or nothing, with N defaulting to the surface's desired image
    count;
  - the order of each unit's native calls;
  - the append-only stale-image queue;
  - registration under a name;
  - the `prev_shift` rotation.
- **Descriptor-pool accounting** (`pipeline.rs`, modelled in `pipeline.dfy`). It covers:
  - the binding builder and the fixed binding list;
  - the pool-size accumulation, whose counts never grow beyond 1;
  - the push-constant range;
  - the creation sequence, where the pool allows 3 sets and 3 sets are allocated;
  - the `bind_descriptor_set` index requirement.

Native Vulkan calls are modelled by an abstract device (`native.dfy`).
- Call number `k` returns handle `k` (slot `i` when one call creates several objects).
  It fails with the code recorded for `k` in the device's failure map.
- The device keeps a log of every call it was asked to make, including the one that
  failed.
- `Traced(dev, calls, r, after)` says that a run attempted `calls` in order and
  stopped at the first failure. All creation sequences are stated through it.

## Model

| member | source | states |
|---|---|---|
| LayoutQualifiers.ApplyLayoutSpec | src/vulkan/resources/shader_module/analysis.rs:31-78 | a layout id is rejected exactly when it is not one of binding/set/offset/local_size_x/y/z with an integer literal, or rgba32f/push_constant/std140/std430 without a value; a non-identifier spec or a non-literal value is rejected whatever the name; the error names what was rejected: the spec itself, the (name, value) pair of an identifier, or the non-literal value; the storage is never touched |
| LayoutQualifiers.ApplyLayoutSpecSetting | src/vulkan/resources/shader_module/analysis.rs:53-60 | an accepted integer id sets its own setting to its literal and leaves every other integer setting unchanged |
| LayoutQualifiers.ApplyLayoutIds | src/vulkan/resources/shader_module/analysis.rs:93-95 | the ids of one `layout(...)` fail exactly when one of them is rejected, and never change the storage |
| LayoutQualifiers.ApplyLayoutIdsFirstError | src/vulkan/resources/shader_module/analysis.rs:93-95 | when an id is rejected and every id before it is accepted, the ids of the `layout(...)` fail with exactly that id's error, as `try_for_each` stops at the first error |
| LayoutQualifiers.LastIntOrLastWins | src/vulkan/resources/shader_module/analysis.rs:55-60 | the reference "last value given to a name" is the value of the last id with that name, or the default when no id has it |
| LayoutQualifiers.ApplyLayoutIdsSetting | src/vulkan/resources/shader_module/analysis.rs:88-100 | after processing, every integer setting holds the value of the last id with that name (last write wins), or its previous value |
| LayoutQualifiers.ApplyLayoutIdsFlags | src/vulkan/resources/shader_module/analysis.rs:61-62 | `push_constant` is on after processing exactly when it was on before or some id names it; the image format becomes rgba32f when some id names it and is otherwise unchanged |
| LayoutQualifiers.ApplyLayoutIdsAppend | src/vulkan/resources/shader_module/analysis.rs:88-100 | processing `a + b` is processing `a` and then, unless that failed, `b` |
| LayoutQualifiers.ApplyLayoutIdsIgnoresStorage | src/vulkan/resources/shader_module/analysis.rs:53-69 | the outcome of the layout ids does not depend on the storage set before them |
| LayoutQualifiers.LastStorageOrLastWins | src/vulkan/resources/shader_module/analysis.rs:90 | the reference "last storage keyword" is the storage of the last storage spec, or the default without one |
| LayoutQualifiers.ApplyQualifierSpecsStorage | src/vulkan/resources/shader_module/analysis.rs:88-100 | after a qualifier the storage is the last storage keyword (last write wins) |
| LayoutQualifiers.ApplyQualifierSpecsAsLayoutIds | src/vulkan/resources/shader_module/analysis.rs:88-100 | apart from the storage, a qualifier acts like all its layout ids read as one list; precision, interpolation and invariant specs are ignored |
| LayoutQualifiers.SimplifyTypeQualifier | src/vulkan/resources/shader_module/analysis.rs:80-106 | fails exactly when the qualifier is rejected; otherwise storage, binding, set and offset are the last ones given, the flags are set exactly when named, and the local size is reported only when it differs from (1, 1, 1) with each missing component 1 |
| Declarations.MatchGlobals | src/vulkan/resources/shader_module/analysis.rs:108-125 | a global declaration fails unless its qualifier is accepted and its last storage is `in`, with the storage in the error; it yields the qualifier's local size, (1, 1, 1) by default |
| Declarations.SimplifyTypeSpecifier | src/vulkan/resources/shader_module/analysis.rs:188-200 | an array type is an error naming the array; otherwise the type itself |
| Declarations.MatchInitDeclaratorList | src/vulkan/resources/shader_module/analysis.rs:202-271 | in the code's order: an array type is an error; a struct type gives nothing before the qualifier is read; a missing qualifier is an error; `const` gives nothing; storage other than `uniform` is an error; a missing name or a non-empty tail is an error; a variable is produced exactly for a lone named uniform, with name, type, last binding, last set and image format taken from the source |
| Declarations.MatchDimensions | src/vulkan/resources/shader_module/analysis.rs:338-360 | the dimensions fail exactly when one is sized by something other than an integer literal; otherwise one entry per dimension, the literal or nothing when unsized |
| Declarations.MatchBlockField | src/vulkan/resources/shader_module/analysis.rs:316-368 | a field with other than exactly one declared name is an error; otherwise the name, the type, the offset from the qualifier, and the dimensions of the one name |
| Declarations.MatchBlockFields | src/vulkan/resources/shader_module/analysis.rs:456-459 | the fields are analysed one by one, in source order; the first failing field decides the error |
| Declarations.MatchBlock | src/vulkan/resources/shader_module/analysis.rs:425-470 | an arrayed instance name is an error before the qualifier is read; storage other than `uniform` or `buffer` is an error naming it; uniform blocks are uniform buffers and buffer blocks storage buffers; binding, set and push_constant come from the qualifier and the fields keep source order |
| Declarations.VariableDescriptorInfo | src/vulkan/resources/shader_module/analysis.rs:143-172 | a variable is named by its declared name; a 2D sampler is a combined image sampler and every other type a storage image; the set defaults to 0; a missing binding is an error naming the variable |
| Declarations.BlockDescriptorInfo | src/vulkan/resources/shader_module/analysis.rs:381-403 | a block is named by its instance name, or else its struct name; its type follows its storage; the set defaults to 0; a missing binding is an error naming the struct |
| BlockSize.FieldByteSize | src/vulkan/resources/shader_module/analysis.rs:284-313 | the table gives every listed type a size between 1 and 64 bytes; an unlisted type is excluded by the precondition (the source panics) |
| BlockSize.Alignment | src/vulkan/resources/shader_module/analysis.rs:405-409 | the alignment is `2^e` for some `e >= 2`, at least `x`, and below `2 x` unless it is 4 |
| BlockSize.AlignmentIsLeast | src/vulkan/resources/shader_module/analysis.rs:405-409 | no power of two with exponent at least 2 that covers `x` is below the alignment of `x` |
| BlockSize.AlignmentExamples | src/vulkan/resources/shader_module/analysis.rs:404-409 | 1, 2 and 4 align to 4; 8 to 8; 12 to 16; 36 to 64 |
| BlockSize.FieldsSizeStatusRejects | src/vulkan/resources/shader_module/analysis.rs:413-422 | the size loop stops without a size exactly when some field has no offset |
| BlockSize.FieldsByteSizeIsMax | src/vulkan/resources/shader_module/analysis.rs:413-422 | the running maximum of the loop is the largest field extent (offset plus aligned size), 0 for no fields |
| BlockSize.ByteSize | src/vulkan/resources/shader_module/analysis.rs:411-423 | the block size is absent exactly when some field has no offset, and is otherwise the largest field extent (0 for an empty block) |
| BlockSize.ByteSizeOrderIndependent | src/vulkan/resources/shader_module/analysis.rs:411-423 | two blocks with the same fields in any order have the same size |
| Shader.Step | src/vulkan/resources/shader_module/analysis.rs:486-509 | one declaration fails exactly when it is rejected; ignored declarations change nothing; only a global declaration changes the local size, to its own; only a block declaration changes the blocks |
| Shader.StepErrorIndependent | src/vulkan/resources/shader_module/analysis.rs:486-509 | a rejected declaration fails with the same error whatever was collected before it |
| Shader.AnalyzeShader | src/vulkan/resources/shader_module/analysis.rs:482-511 | the analysis fails exactly when some declaration is rejected before any panics |
| Shader.AnalyzeShaderFirstError | src/vulkan/resources/shader_module/analysis.rs:486-509 | the analysis fails with the error of the first rejected declaration |
| Shader.AcceptedPrefix | src/vulkan/resources/shader_module/analysis.rs:486-509 | a successful analysis accepted every declaration |
| Shader.AnalyzeShaderLastGlobal | src/vulkan/resources/shader_module/analysis.rs:482-492 | the analysed local size is that of the reference "last global declaration" |
| Shader.AnalyzeShaderLocalSize | src/vulkan/resources/shader_module/analysis.rs:482-492 | without a global declaration the local size is (1, 1, 1); otherwise it is the local size of the last global declaration |
| Shader.AnalyzeShaderBlocks | src/vulkan/resources/shader_module/analysis.rs:484-500 | the blocks are the block declarations, each analysed on its own, in source order |
| Shader.AnalyzeShaderVariables | src/vulkan/resources/shader_module/analysis.rs:483-499 | the variables are the lone named uniform declarations, each analysed on its own, in source order |
| Shader.WithoutIgnoredStatus | src/vulkan/resources/shader_module/analysis.rs:501-507 | dropping precision declarations, prototypes, preprocessor lines and function definitions does not change the verdict |
| Shader.AnalyzeShaderWithoutIgnored | src/vulkan/resources/shader_module/analysis.rs:501-507 | dropping the ignored declarations does not change the result |
| DescriptorLayout.CheckBindings | src/vulkan/resources/descriptor_layout.rs:31-43 | the scan fails exactly when two descriptors share a binding index; the error names that binding, the first descriptor whose binding was taken, and the first earlier descriptor that took it |
| DescriptorLayout.FirstClashExists | src/vulkan/resources/descriptor_layout.rs:32-41 | a list with a shared binding has a first clashing descriptor |
| DescriptorLayout.SharedBindingKeyedOnIndex | src/vulkan/resources/descriptor_layout.rs:33-35 | whether and where the check fails depends only on the binding indices, not on names or types |
| DescriptorLayout.LayoutBindings | src/vulkan/resources/descriptor_layout.rs:46-49 | one layout binding per descriptor, in input order |
| DescriptorLayout.NewDescriptorLayout | src/vulkan/resources/descriptor_layout.rs:28-56 | on a shared binding the device is untouched and the clash error is returned; otherwise exactly one push-descriptor layout is created over the descriptors' layout bindings |
| MultiImages.NewImageUnit | src/vulkan/multi_image.rs:25-49 | a unit's image, memory and view are the handles of its first, second and fourth calls |
| MultiImages.NewImageUnitSteps | src/vulkan/multi_image.rs:32-42 | a unit creates the image, allocates memory sized to the image's requirement, binds it and creates the view, stopping at the first failure |
| MultiImages.ImageUnitsCalls | src/vulkan/multi_image.rs:72-82 | the calls of `n` units are `4 n` calls, unit `k` taking calls `4 k` to `4 k + 3` |
| MultiImages.NewImageUnits | src/vulkan/multi_image.rs:63-84 | creation yields exactly `n` units or the error of the first failing call, never a partial result; unit `k` holds the handles of its own calls |
| MultiImages.NewImageUnitsLog | src/vulkan/multi_image.rs:72-82 | after a successful creation, the log holds unit `k`'s four calls at positions `4 k` to `4 k + 3` |
| MultiImages.NewMultiImage | src/vulkan/multi_image.rs:94-129 | `num_images` defaults to the desired image count; it succeeds exactly when none of the `4 n` calls fails; on failure only the device changed; on success one (name, image, UNDEFINED, GENERAL) entry per unit is appended to the stale queue in unit order, earlier entries kept, and one (view, shared sampler) pair per unit is registered under the name; nothing but the device, the stale queue and the registry changes; the run is the trace of the `4 n` unit calls, stopping at the first failure, and unit `k` holds the handles of calls `4 k` to `4 k + 3` |
| MultiImages.Rotated | src/vulkan/multi_image.rs:132-137 | the rotation has the same length, its first element is the last input element, and element `i >= 1` is input element `i - 1` |
| MultiImages.RotatedPermutes | src/vulkan/multi_image.rs:132-137 | the rotation neither loses nor duplicates units |
| MultiImages.RotatedTimesSplit | src/vulkan/multi_image.rs:132-137 | the rotation `prev_shift` applies, as a sequence operation: `k` rotations move the last `k` elements to the front in order (the program applies it once per multi-image) |
| MultiImages.RotatedTimesLength | src/vulkan/multi_image.rs:132-137 | the rotation `prev_shift` applies, as a sequence operation: as many rotations as there are units give back the original order, so it is a cyclic shift (the program applies it once per multi-image) |
| MultiImages.PrevShift | src/vulkan/multi_image.rs:131-150 | the shifted image is the rotation of the input (which must be non-empty), and the only change to the context is the new name's entry: the shifted views with the shared sampler |
| MultiImages.PrevShiftRegistersRotatedViews | src/vulkan/multi_image.rs:140-147 | the shifted image holds the same units, the registered views are the original ones rotated, and the stale queue and device are untouched |
| MultiBuffers.NewBufferUnit | src/vulkan/multi_buffer.rs:23-44 | a unit's buffer, memory and mapping are the handles of its first three calls |
| MultiBuffers.NewBufferUnitSteps | src/vulkan/multi_buffer.rs:29-37 | a unit creates the buffer, allocates memory sized to the buffer's requirement, maps that memory and binds it, stopping at the first failure |
| MultiBuffers.BufferUnitsCalls | src/vulkan/multi_buffer.rs:69-71 | the calls of `n` units are `4 n` calls, unit `k` taking calls `4 k` to `4 k + 3` |
| MultiBuffers.NewBufferUnits | src/vulkan/multi_buffer.rs:61-73 | creation yields exactly `n` units or the error of the first failing call, never a partial result; unit `k` holds the handles of its own calls |
| MultiBuffers.NewBufferUnitsLog | src/vulkan/multi_buffer.rs:69-71 | after a successful creation, the log holds unit `k`'s four calls at positions `4 k` to `4 k + 3` |
| MultiBuffers.BufferHandles | src/vulkan/multi_buffer.rs:98-101 | one buffer handle per unit, in unit order |
| MultiBuffers.NewMultiBuffer | src/vulkan/multi_buffer.rs:88-105 | `num_buffers` defaults to the desired image count; it succeeds exactly when none of the `4 n` calls fails; on failure only the device changed; on success only the device and the name's registry entry (the buffers in unit order) change, so the stale queue is untouched; the run is the trace of the `4 n` unit calls, stopping at the first failure, and unit `k` holds the handles of calls `4 k` to `4 k + 3` |
| MultiBuffers.Mapped | src/vulkan/multi_buffer.rs:76-78 | the mapping of a unit of the buffer, for an index that must be in range |
| MultiBuffers.NewMultiBufferMapped | src/vulkan/multi_buffer.rs:29-37 | on a fresh buffer, `mapped(i)` is the address returned by unit `i`'s mapping call, and that call mapped unit `i`'s own memory |
| MultiBuffers.NewMultiBufferMappingsDistinct | src/vulkan/multi_buffer.rs:76-78 | distinct indices of a fresh buffer give distinct mappings, because the device model gives every call its own handle (the source does not check this) |
| Pipeline.MakeBinding | src/vulkan/pipeline.rs:26-37 | the given binding and type, a count of 1, and the compute stage |
| Pipeline.FixedBindings | src/vulkan/pipeline.rs:39-45 | exactly a storage image at binding 0 and a storage buffer at binding 1, each a single compute descriptor |
| Pipeline.PoolSizes | src/vulkan/pipeline.rs:103-109 | one pool entry per descriptor type present in the bindings, and every count is 1 |
| Pipeline.CountOfTypePositive | src/vulkan/pipeline.rs:103-109 | the reference count of a type is positive exactly when some binding has the type |
| Pipeline.PoolSizesUndercount | src/vulkan/pipeline.rs:105-108 | a type has a pool entry exactly when it occurs; its count never exceeds the number of bindings of that type, and equals it only when the type occurs once |
| Pipeline.PoolSizesExample | src/vulkan/pipeline.rs:105-108 | two storage-image bindings still give a pool with room for one storage image |
| Pipeline.FixedPoolSizes | src/vulkan/pipeline.rs:103-109 | the fixed bindings give a pool of one storage image and one storage buffer |
| Pipeline.PushConstantRangeOf | src/vulkan/pipeline.rs:62-67 | offset 0 and the compute stage; the size is the push-constant byte size truncated to 32 bits, so it equals that size when it fits |
| Pipeline.NewDescriptorPool | src/vulkan/pipeline.rs:98-125 | one call creating a pool with the accumulated sizes, whose set limit is the given set count |
| Pipeline.NewPipelineObjects | src/vulkan/pipeline.rs:143-150 | the set layout, pipeline layout and compute pipeline are the handles of the first three calls |
| Pipeline.NewPipelineObjectsSteps | src/vulkan/pipeline.rs:143-150 | a set layout over the fixed bindings is created, then a pipeline layout over it with the push-constant range, then the compute pipeline, stopping at the first failure |
| Pipeline.NewPipeline | src/vulkan/pipeline.rs:127-166 | a new pipeline has exactly 3 descriptor sets, the objects of its fifth call in order |
| Pipeline.NewPipelineSteps | src/vulkan/pipeline.rs:140-166 | the five calls are issued in order, stopping at the first failure: the pool holds one storage image and one storage buffer and allows 3 sets, and 3 sets of the one set layout are allocated |
| Pipeline.BindDescriptorSet | src/vulkan/pipeline.rs:181-182 | the bound set is one of the pipeline's sets, for an index that must be in range |
| Pipeline.BindDescriptorSetIndices | src/vulkan/pipeline.rs:181-182 | every index below 3 can be bound on a new pipeline, and distinct indices bind distinct sets, because the device model gives every allocated slot its own handle (the source does not check this) |

## Left out

- Reading and parsing the shader file (`analysis.rs:476-480`) is done by the file system and the `glsl` crate. The model starts from the syntax tree.
- Native Vulkan calls are abstract. Only the call kind and the arguments that carry the modelled logic are recorded: handles, sizes as symbolic requirements, memory types, usages, layouts and counts. The image subresource range, image creation details, shader stage info and sampler creation are not recorded.
- The value of a memory requirement is not modelled. It is a symbolic `RequirementOf(resource)`. The `unwrap` of the image's requirement query (`multi_image.rs:33`) is taken to succeed.
- `Drop`, `Rc` reference counting and the `destroy_*` calls are not modelled. The units created before a failing unit are dropped, and that is not recorded in the log.
- Logging (`debug!`, `info!`) is side output only and is not modelled.
- `register_image` and `register_buffer` (in `vulkan/mod.rs`, which is not part of this model) are modelled as replacing the name's registry entry.
- `descriptors.rs` is not part of this model. A descriptor appears only through its name, its binding index and the layout binding it converts to (`DescriptorLayout.DescriptorBinding`).
- `Pipeline::push_constants` and the command recording in `bind_descriptor_set` issue GPU commands and are not modelled. Only the index requirement of `bind_descriptor_set` is.
- `PushConstants` is a type parameter in the source. The model takes its byte size as a natural number.
- MultiBuffers.Mapped: its own contract says only that the result is the mapping of some unit, because "unit `index`'s mapping" would restate its body. That it is the address returned by unit `index`'s own mapping call is stated for fresh buffers by `MultiBuffers.NewMultiBufferMapped`.
- Pipeline.BindDescriptorSet: its own contract says only that the bound set is one of the pipeline's sets. Which set each index selects on a new pipeline is stated by `Pipeline.NewPipeline` and `Pipeline.BindDescriptorSetIndices`.
- BlockSize.Alignment: models the exact "least power of two at least `x`, and at least 4". The source computes the exponent through `f32` `log2`, which can round differently for sizes near large powers of two. All sizes in the type table are exact in `f32`.
- Integer widths: layout values, dimensions and offsets are `usize` in the source and unbounded here. The only truncation modelled is the `as u32` of the push-constant size.
- A local size with a zero component is accepted, because the code does not check it.
- The memory layout (`std140`/`std430`) is recorded in the properties but used nowhere, and no property is stated about it.
- `dft.rs`, `utils.rs`, `window.rs`, `event_loop.rs`, `main.rs`, the examples, `error.rs` formatting and the `resources/*` RAII wrappers are outside the analysed core.
