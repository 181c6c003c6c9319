# imagene in Dafny

imagene is a command-line batch image editor. It is called as
`imagene infile action:value... flag... outfile`. It loads the input image and every image
named by an `append:` argument, each on its own loader thread. It applies the actions in
order to a working image and writes the result in the format the output name selects. A
`Format` action can override that format.

This project models that core:

- **Argument parser** (`src/cli.rs`, modules `Cli` and `CliFacts`).
  - `split_kv` recognises `key:value` arguments.
  - `parse` classifies the arguments strictly between the input and output names into:
    - the action list,
    - the flag map,
    - the list of images to load.
  - `parse` is an imperative loop (`Cli.Parse`). It is proved equal to a fold over the
    effect of each argument (`Cli.ParseArgs`). The lemmas then describe that fold argument
    by argument.
- **Executor** (`src/main.rs`, modules `Registry`, `Compose`, `Pipeline` and `PipelineFacts`).
  - The loader loop gives one channel to each distinct name.
  - The output name's extension selects the default encoding.
  - The action loop threads four things through the actions:
    - the working image,
    - the output format,
    - the channels,
    - the cache of appended images (`extra_images`).
  - `Append` picks its source, resizes it, sizes a canvas and blits both images onto it.
  - The loop is imperative (`Pipeline.Execute`, one pass per `Pipeline.ApplyAction`). It is
    proved equal to a left fold of `Pipeline.Step` (`Pipeline.Run`). The lemmas prove:
    - the channel and cache discipline;
    - which faults are possible;
    - the final format;
    - the geometry of each action.
- **Helpers.** `flag_is_enabled` (`src/misc.rs`, module `Misc`) and the enums of
  `src/action.rs` (module `Actions`).

### Data model

- **Images.** Images are values: `Raster(width, height, rows)` over RGBA pixels. The
  subset type `Image` requires the grid to match the dimensions.
- **Library.** The image library is a `Library` record of operations: the filters, the
  rotations, the flips, `crop`, `resize` and `resize_exact`. The ghost predicate
  `Raster.Sound` states only the sizes the executor relies on:
  - filters, flips and the half turn keep the size;
  - quarter turns swap width and height;
  - `resize` fits inside the requested box, where a zero side of the box counts as one
    pixel;
  - `resize_exact` gives exactly the requested size.
- **Canvas and blits.** `new_rgba8` is `Raster.Blank`, a transparent canvas.
  `copy_from` is `Raster.CopyFrom`. When the source fits at the offset, it overwrites that
  rectangle; otherwise it leaves the destination unchanged, as in the image crate.
- **Channels.** A channel is a `Registry.Slot`. It is `Ready(image)` until its image has
  been received and `Taken` afterwards. Decoding is the parameter `open: string -> Image`.
  There are two failing `unwrap`s, modelled as `Registry.RecvError`:
  - `NoChannel`: a name without a channel;
  - `Disconnected`: a second `recv` on the same channel.
- **Canvas overflow.** A canvas side that overflows `u32` is the fault `CanvasOverflow`.
  This is the panic of a debug build.

### Two revisions of the action type

The source files come from two revisions of the program:

- **`src/action.rs` and `src/cli.rs`.** `Action` has nine variants, including a
  one-argument `Append(String)`. `Direction` is `Down | Left | Right`, and `Flag` is
  `Shrink | Vertical`. Module `Actions` is this revision. The parser produces it.
- **`src/main.rs`.** The code matches on eleven variants. The extra ones are `Invert` and
  `Format`, and `Append` takes a file name and a direction. It also uses `Direction::Up` and
  `Flag::Lanczos3`, and it calls `cli::flag_is_enabled`, which is defined in `src/misc.rs`.
  Module `MainActions` is this revision. The executor consumes it.

Nothing converts one revision into the other. The model states both as written, and the
executor takes its action list and flags as parameters.

### Executor details

- The default format comes from the last `.`-separated piece of the whole output name. The
  comparison is case-sensitive. A name without a dot is compared whole, so an output named
  `gif` is written as GIF.
- `u32::MAX` in `Scale` and the bound `100000000` in `Append` are kept as written.

## Model

| member | source | states |
|---|---|---|
| Misc.FlagIsEnabled | src/misc.rs:1-6 | the result is true exactly when the flag is present and set to true. An absent flag reads as false. |
| Common.Get | src/main.rs:86 | a map lookup gives None exactly when the key is absent, and otherwise the stored value |
| Text.SplitCount | src/main.rs:44 | `str::split` on one character gives one more piece than there are separators |
| Text.SplitPiecesFree | src/cli.rs:142 | no piece of a split contains the separator |
| Text.SplitJoinsBack | src/cli.rs:142 | joining the pieces with the separator gives back the original string |
| Text.SplitWithoutSeparator | src/main.rs:44 | a string without the separator splits into itself alone |
| Text.SplitJoin | src/cli.rs:92 | splitting undoes joining pieces that are free of the separator. This is the inverse of `Text.Join`. |
| Text.SplitAround | src/main.rs:44 | a separator splits a string into the pieces before it followed by the pieces after it |
| Text.SplitLastPiece | src/main.rs:44-45 | the last piece of a split is the text after the last separator |
| Registry.LoadImages | src/main.rs:18-40 | the loader loop yields one channel per listed name, each delivering that name's decoded image. It spawns loaders for the distinct names, in order of first occurrence (`Dedup`). |
| Registry.ChannelsForNames | src/main.rs:39 | the channel map's keys are exactly the set of listed names |
| Registry.DedupExactlyOnce | src/main.rs:20-23 | every listed name is loaded exactly once, and no unlisted name is loaded. Later duplicates are skipped. |
| Registry.DedupCount | src/main.rs:20-39 | the number of loads equals the number of distinct names |
| Registry.RecvOneShot | src/main.rs:55 | `recv` succeeds exactly on a channel that still holds its image, delivers that image and marks only that channel as taken. A second `recv` on it fails. |
| Pipeline.FormatForExtension | src/main.rs:45-53 | "jpg" and "jpeg" select JPEG at quality 100; "bmp", "gif" and "ico" select their own formats; everything else, "png" included, selects PNG. Each is an iff. |
| Pipeline.DefaultFormatOfExtension | src/main.rs:43-53 | a dotted output name selects the format of the text after its last dot |
| Pipeline.DefaultFormatWithoutDot | src/main.rs:43-53 | a name without a dot is matched as a whole |
| Pipeline.Algorithm | src/main.rs:86-90 | the resampling filter is Lanczos3 exactly when the Lanczos3 flag is present and true, and Nearest otherwise |
| Pipeline.FaultPersists | src/main.rs:116-119 | once an `unwrap` has aborted the run, later actions change nothing: the run ends with that fault |
| Pipeline.PickSource | src/main.rs:113-123 | the append source is picked three ways: the current image for the primary name, the cached copy, or a first `recv` that fills the cache |
| Pipeline.ApplyAppend | src/main.rs:102-161 | the imperative append: filter choice, source, resize, canvas allocation with `u32` overflow, and the two blits per direction. Its result equals `Step` on an `Append`. |
| Pipeline.ApplyAction | src/main.rs:57-163 | one pass of the action loop equals `Step` for every action kind |
| Pipeline.Execute | src/main.rs:17-164 | the whole program up to writing: the spawned loaders are `Dedup(imageNames)`, and the resulting image and format are `Run`, the fold of `Step` from the primary image and the default format |
| PipelineFacts.RunFromFormat | src/main.rs:162 | a fold leaves the format of its last `Format` action, or the starting format when it has none |
| PipelineFacts.RunFormat | src/main.rs:43-162 | the written format is the last `Format` action's, or else the one the output name selects |
| PipelineFacts.FormatOnlySetsFormat | src/main.rs:162 | `Format(f)` sets the output format to `f` and leaves the image, the channels and the cache as they were |
| PipelineFacts.StepIgnoresFormat | src/main.rs:57-161 | every other action succeeds or fails alike whatever the current format is, and leaves the format as it was |
| PipelineFacts.FormatsTouchNoPixels | src/main.rs:56-163 | removing every `Format` action from the list gives the same fault, or the same image, channels and cache |
| PipelineFacts.SecondarySourceIsOriginal | src/main.rs:116-123 | a non-primary name is always appended as decoded, however often it was appended before: the cache never holds a resized copy |
| PipelineFacts.PrimarySourceIsWorkingImage | src/main.rs:113-114 | the primary name appends the working image as transformed so far, and touches no channel and no cache entry |
| PipelineFacts.SourceDisciplined | src/main.rs:113-123 | picking a source keeps the discipline and only adds to the cache. A channel is received at most once; the only possible failure is a name that has no channel. |
| PipelineFacts.StepDisciplined | src/main.rs:56-163 | every action keeps the discipline and only adds to the cache. It can fail only by overflowing the canvas or by naming an image without a channel. |
| PipelineFacts.RunFromDisciplined | src/main.rs:56-164 | across the whole loop the discipline holds and cached images never change. When every appended name has a channel, the only possible fault is a canvas overflow. |
| PipelineFacts.InitiallyDisciplined | src/main.rs:55 | the primary `recv` succeeds when the input is listed and delivers its decoded image, with an empty cache |
| PipelineFacts.RunFaults | src/main.rs:55-164 | an unlisted input fails with NoChannel. With every appended name listed, the run succeeds or overflows a canvas; it never receives twice. |
| PipelineFacts.RotateUpIsIdentity | src/main.rs:75 | `Rotate(Up)` leaves the whole state unchanged |
| PipelineFacts.RotateSize | src/main.rs:70-77 | Left and Right swap width and height; Up and Down keep the size |
| PipelineFacts.HalfTurnTwiceKeepsSize | src/main.rs:74 | two half turns keep the size |
| PipelineFacts.ScaleSize | src/main.rs:84-100 | with both sides non-zero the result has exactly that size. A zero width bounds only the height, and this branch wins even when both are zero. A zero height bounds only the width. |
| PipelineFacts.AppendComposes | src/main.rs:125-160 | after a successful append the canvas fits `u32`, and the new working image is the declarative composite with both images at the origins of the direction table. The images are aligned whenever the working image has pixels along the fitted side. |
| Compose.EmptySideBlits | src/main.rs:125-160 | a working image with no pixels along the fitted side gives a canvas without pixels, and the blits still equal the composite |
| Compose.Placement | src/main.rs:142-159 | given the alignment the resize produces, both rectangles lie inside the canvas and do not overlap |
| Compose.CompositeLayout | src/main.rs:126-160 | the canvas is `w × (h + h')` when stacking and `(w + w') × h` side by side. Both images appear intact at their origins. |
| Compose.WorkingIntact | src/main.rs:142-159 | every pixel of the working image appears at its offset on the canvas |
| Compose.AppendedIntact | src/main.rs:142-159 | every pixel of the appended image appears at its offset on the canvas |
| Compose.BlitsAreComposite | src/main.rs:142-160 | the program's blank canvas plus its two `copy_from` calls, in the program's order, draw exactly the declarative composite |
| Raster.Blank | src/main.rs:129-132 | a new canvas has the requested size and is transparent everywhere |
| Raster.CopyFrom | src/main.rs:144-157 | `copy_from` keeps the destination's size. A source that does not fit changes nothing; otherwise the source's rectangle is overwritten and every other pixel is kept. |
| Cli.SplitKv | src/cli.rs:141-150 | Ok exactly when the argument has exactly one colon, with key and value colon-free and `s == k + ":" + v`. Otherwise Err with the text "Parse error on argument: " followed by the argument. |
| Cli.SplitKvOfPair | src/cli.rs:141-150 | every colon-free key and value round-trip through `split_kv` |
| Cli.HaltPersists | src/cli.rs:68-118 | once an argument exits or panics, later arguments do not matter |
| Cli.ParsePair | src/cli.rs:73-118 | the imperative handling of one `key:value` argument equals `ClassifyPair` |
| Cli.ClassifyArgument | src/cli.rs:69-134 | the imperative handling of one argument equals `Classify` |
| Cli.Parse | src/cli.rs:14-139 | `parse` as a loop equals the fold `ParseArgs` on every argument list |
| CliFacts.PushedAppend | src/cli.rs:75-117 | a pair argument pushes an action or halts. It yields an `Append` exactly for the key "append", and then with its value. |
| CliFacts.NoColonIsNotPair | src/cli.rs:141-146 | an argument without a colon is not a pair |
| CliFacts.ColonFreeEffect | src/cli.rs:121-133 | a colon-free argument sets the flag it names, or is only reported |
| CliFacts.FlagWordSetsFlag | src/cli.rs:124-129 | "shrink" and "vertical" set their flags |
| CliFacts.OnlyFlagWordsSetFlags | src/cli.rs:121-133 | only those two words set a flag |
| CliFacts.FlagWords | src/cli.rs:121-133 | an argument sets flag `f` exactly when it is `f`'s word |
| CliFacts.NonPairEffect | src/cli.rs:121-133 | an argument that is not a pair never pushes an action and never halts |
| CliFacts.AccumulateCompletes | src/cli.rs:68-136 | the loop finishes exactly when no argument exits or panics |
| CliFacts.AccumulateLists | src/cli.rs:65-118 | when it finishes, the image list is the input followed by every appended name, and the actions are every pushed action in order |
| CliFacts.AccumulateFlags | src/cli.rs:121-133 | when it finishes, exactly the flags some argument sets are present, each set to true |
| CliFacts.PushedAppendsListed | src/cli.rs:110-113 | every pushed `Append` names an image in the appended list |
| CliFacts.EffectsAppended | src/cli.rs:110-113 | the appended names are the values of the `append:` arguments in order, duplicates kept |
| CliFacts.EffectsPushed | src/cli.rs:73-118 | when no argument halts, there is one action per `key:value` argument, in argument order, each the classification of that argument |
| CliFacts.EffectsFlags | src/cli.rs:122-133 | a flag is set by some argument exactly when its word is among the arguments |
| CliFacts.ParseOutcome | src/cli.rs:14-139 | `parse` returns exactly when there are at least three arguments, the second is not a help word and no middle argument halts. Then: infile is `args[1]` and outfile the last argument; the images are infile followed by the append values; there is one action per pair argument, in order; the flags are exactly those whose word appears, set to true. |
| CliFacts.ParseEarlyExits | src/cli.rs:20-68 | a missing first argument panics; a help word exits with status 0 before anything is classified; exactly two arguments panic on the middle slice |
| CliFacts.FirstHaltWins | src/cli.rs:68-118 | the first middle argument that exits or panics decides the outcome |
| CliFacts.UnknownKeyExits | src/cli.rs:114-117 | a pair with an unknown key exits with status 1 |
| CliFacts.InvalidNumberPanics | src/cli.rs:76-109 | an unparsable number for contrast, brightness or blur panics with the `expect` message "<key>: Invalid value for <value>". For `resize`, the message names the width piece that does not parse, or the height piece when the width parses. Rust appends the parse error's text to it; that suffix is not modelled. |
| CliFacts.ResizeArguments | src/cli.rs:91-109 | `resize:` reads the width and height from the first two comma-separated pieces, ignoring any further ones. A single parsable piece panics on the missing height. |
| CliFacts.ParseAppendsLoaded | src/cli.rs:65-113 | the image list starts with infile, and every `Append` action names an image in it |

## Left out

- Threads, `mpsc::channel`, `send` and blocking `recv` (src/main.rs:24-38). A channel is
  the image it will deliver, so there is no concurrency and no interleaving in the model.
- `image::open` and the `exit(2)` on a load failure (src/main.rs:28-35). Decoding is the
  total parameter `open`, so load failures are not modelled.
- The pixel content of `invert`, `adjust_contrast`, `brighten`, `blur`, `unsharpen`,
  `crop`, the rotations, the flips and resampling. These are floating-point library code;
  they are `Library` closures constrained only by `Raster.Sound`.
- The aspect-ratio arithmetic inside `resize`, also library code. `Raster.Sound` only says
  the result fits the box, a zero side of the box counting as one pixel.
- `crop`: nothing is promised about its result, and an out-of-bounds crop is not a fault.
  `crop` is passed its rectangle unchecked (src/main.rs:68), and the library clamps it.
- Writing the output (src/main.rs:164-185), `File::create`, the `stdout` special name and
  encoding errors. All of this is I/O.
- Printing: the help text, "Using infile …", "action not found" and "Unrecognized argument".
  Also `colored` and `env::args`. The argument list is a parameter, and messages are not
  modelled except the `expect` texts and the `split_kv` error text.
- `str::parse::<f32>`, `::<i32>` and `::<u32>`. They are library routines, given as the
  partial functions in `Cli.NumberParsers`. `f32` values are opaque 32-bit patterns
  (`Common.F32`).
- Reporting an unrecognised argument: an unrecognised argument is only printed, and parsing
  goes on (the effect `Report`). This covers a word that is not a flag and an argument with two or
  more colons.
- src/action/text.rs is not part of this model. The text overlay reads font files and uses
  floating-point layout.
- The pixel formats of `DynamicImage`: every image is modelled as RGBA8.
- Output formats beyond PNG, JPEG, GIF, ICO and BMP. src/main.rs names only these five, and
  the model limits the payload of `Format` to them (`MainActions.OutputFormat`).
- The conversion between the two revisions of `Action`, `Direction` and `Flag`: the source
  has none. The `Shrink` and `Vertical` flags the parser sets are never read by the
  executor. The parser cannot produce `Invert`, `Format` or a directed `Append`.
- Canvas overflow: a release build would wrap instead. The model treats an overflow as the
  debug-build panic `CanvasOverflow`.
- PipelineFacts.AppendComposes: the images are proved `Aligned` only when the working image
  has at least one pixel along the side the source is fitted to. With zero pixels there,
  `resize` may leave the source one pixel wide. The canvas then has no pixels, so the result
  is still the composite, but the source does not appear on it.
- `Invert` mutates the image in place (src/main.rs:58). The model reassigns the working
  image to the library's result, which is the same observable state.
