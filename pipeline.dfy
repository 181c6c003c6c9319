/**
 * The executor of src/main.rs: resolving the default output format, loading the images,
 * and applying the actions in order to a working image.
 */
module Pipeline {
  import opened Common
  import opened Text
  import opened Raster
  import opened MainActions
  import opened Misc
  import opened Registry
  import opened Compose

  // ---------------------------------------------------------------------------------------
  // Output format (src/main.rs:42-53)

  /** The encoding an output extension selects; the comparison is case-sensitive. */
  function FormatForExtension(ext: string): (r: OutputFormat)
    ensures r == JPEG(100) <==> ext == "jpg" || ext == "jpeg"
    ensures r.JPEG? ==> r.quality == 100
    ensures r == BMP <==> ext == "bmp"
    ensures r == GIF <==> ext == "gif"
    ensures r == ICO <==> ext == "ico"
    ensures r == PNG <==> ext !in {"jpg", "jpeg", "bmp", "gif", "ico"}
  {
    match ext
    case "png" => PNG
    case "jpg" => JPEG(100)
    case "jpeg" => JPEG(100)
    case "bmp" => BMP
    case "gif" => GIF
    case "ico" => ICO
    case _ => PNG
  }

  /** The last `.`-separated piece of the output name (the whole name when it has no dot). */
  function Extension(outName: string): (r: string) {
    var pieces := Split(outName, '.');
    pieces[|pieces| - 1]
  }

  /** The encoding used unless a `Format` action overrides it. */
  function DefaultFormat(outName: string): (r: OutputFormat) {
    FormatForExtension(Extension(outName))
  }

  /** A dotted name selects the encoding named after its last dot. */
  lemma DefaultFormatOfExtension(stem: string, ext: string)
    requires '.' !in ext
    ensures DefaultFormat(stem + "." + ext) == FormatForExtension(ext)
  {
    SplitLastPiece(stem, ext, '.');
  }

  /** A name without a dot is matched as a whole, so e.g. `stdout` selects PNG. */
  lemma DefaultFormatWithoutDot(name: string)
    requires '.' !in name
    ensures DefaultFormat(name) == FormatForExtension(name)
  {
    SplitWithoutSeparator(name, '.');
  }

  // ---------------------------------------------------------------------------------------
  // Executor state and one step (src/main.rs:55-163)

  /** What the loop reads but never changes: the primary name, the flags and the library. */
  datatype Env = Env(primary: string, flags: map<Flag, bool>, lib: Library)

  /** The working image, the output format, the channels and the cache of appended images. */
  datatype State = State(
    image: Image,
    format: OutputFormat,
    channels: map<string, Slot>,
    extra: map<string, Image>)

  /** The ways the run aborts: a failing `unwrap` on a channel, or a `u32` overflow. */
  datatype Fault = ChannelFault(error: RecvError) | CanvasOverflow

  datatype Output = Output(image: Image, format: OutputFormat)

  /** The resampling filter for every resize (src/main.rs:86-90, 104-108). */
  function Algorithm(flags: map<Flag, bool>): (f: FilterType)
    ensures f == FilterType.Lanczos3 <==> Flag.Lanczos3 in flags && flags[Flag.Lanczos3]
  {
    if FlagIsEnabled(Get(flags, Flag.Lanczos3)) then FilterType.Lanczos3 else Nearest
  }

  function Rotated(lib: Library, img: Image, d: Direction): (r: Image) {
    match d
    case Right => lib.rotate90(img)
    case Left => lib.rotate270(img)
    case Down => lib.rotate180(img)
    case Up => img
  }

  function Flipped(lib: Library, img: Image, o: Orientation): (r: Image) {
    match o
    case Vertical => lib.flipv(img)
    case Horizontal => lib.fliph(img)
  }

  /** `Scale`: a zero width or height leaves that side to the aspect ratio. */
  function Scaled(lib: Library, img: Image, w: u32, h: u32, f: FilterType): (r: Image) {
    if w == 0 then lib.resize(img, U32_MAX, h, f)
    else if h == 0 then lib.resize(img, w, U32_MAX, f)
    else lib.resizeExact(img, w, h, f)
  }

  /** The bound the program passes for the side of an appended image left to the aspect ratio. */
  const APPEND_BOUND: u32 := 100000000

  /** The appended image resized to the working image's width (stacking) or height. */
  function Fitted(lib: Library, src: Image, working: Image, d: Direction, f: FilterType): (r: Image) {
    if IsVertical(d) then lib.resize(src, working.width, APPEND_BOUND, f)
    else lib.resize(src, APPEND_BOUND, working.height, f)
  }

  /**
   * The image to append (src/main.rs:110-123): a copy of the current working image when the
   * name is the primary one; otherwise the cached copy, receiving and caching it first when
   * it is not cached yet. Also returns the channels and the cache afterwards.
   */
  function AppendSource(env: Env, st: State, filename: string)
    : Result<(Image, map<string, Slot>, map<string, Image>), Fault>
  {
    if filename == env.primary then Ok((st.image, st.channels, st.extra))
    else if filename in st.extra then Ok((st.extra[filename], st.channels, st.extra))
    else match Recv(st.channels, filename)
      case Err(e) => Err(ChannelFault(e))
      case Ok((img, channels)) => Ok((img, channels, st.extra[filename := img]))
  }

  /** The effect of one action on the state. */
  function Step(env: Env, st: State, a: Action): (r: Result<State, Fault>) {
    var lib := env.lib;
    match a
    case Invert => Ok(st.(image := lib.invert(st.image)))
    case Contrast(c) => Ok(st.(image := lib.adjustContrast(st.image, c)))
    case Brightness(b) => Ok(st.(image := lib.brighten(st.image, b)))
    case Blur(s) => Ok(st.(image := lib.blur(st.image, s)))
    case Unsharpen(s, t) => Ok(st.(image := lib.unsharpen(st.image, s, t)))
    case Crop(x, y, w, h) => Ok(st.(image := lib.crop(st.image, x, y, w, h)))
    case Rotate(d) => Ok(st.(image := Rotated(lib, st.image, d)))
    case Flip(o) => Ok(st.(image := Flipped(lib, st.image, o)))
    case Scale(w, h) => Ok(st.(image := Scaled(lib, st.image, w, h, Algorithm(env.flags))))
    case Append(filename, d) =>
      (match AppendSource(env, st, filename)
       case Err(e) => Err(e)
       case Ok((src, channels, extra)) =>
         var appended := Fitted(lib, src, st.image, d, Algorithm(env.flags));
         if !Representable(st.image, appended, d) then Err(CanvasOverflow)
         else Ok(State(Blits(st.image, appended, d), st.format, channels, extra)))
    case Format(f) => Ok(st.(format := f))
  }

  /** The actions applied in order; the first fault ends the run. */
  function RunFrom(env: Env, st: State, actions: seq<Action>): (r: Result<State, Fault>)
    decreases |actions|
  {
    if actions == [] then Ok(st)
    else match RunFrom(env, st, actions[..|actions| - 1])
      case Err(e) => Err(e)
      case Ok(s) => Step(env, s, actions[|actions| - 1])
  }

  /** Lines 14-164 of src/main.rs: load, receive the primary image, run the actions. */
  function Run(infile: string, outfile: string, actions: seq<Action>, flags: map<Flag, bool>,
               imageNames: seq<string>, open: string -> Image, lib: Library): (r: Result<Output, Fault>)
  {
    match Recv(ChannelsFor(imageNames, open), infile)
    case Err(e) => Err(ChannelFault(e))
    case Ok((image, channels)) =>
      match RunFrom(Env(infile, flags, lib), State(image, DefaultFormat(outfile), channels, map[]), actions)
      case Err(f) => Err(f)
      case Ok(st) => Ok(Output(st.image, st.format))
  }

  /** Once a prefix of the actions faults, the whole run ends with that fault. */
  lemma {:induction false} FaultPersists(env: Env, st: State, actions: seq<Action>, n: nat)
    requires n <= |actions|
    requires RunFrom(env, st, actions[..n]).Err?
    ensures RunFrom(env, st, actions) == RunFrom(env, st, actions[..n])
    decreases |actions|
  {
    if n < |actions| {
      var prefix := actions[..|actions| - 1];
      assert prefix[..n] == actions[..n];
      FaultPersists(env, st, prefix, n);
    } else {
      assert actions[..n] == actions;
    }
  }

  /**
   * The source of an `Append` as the program finds it (src/main.rs:110-123): the working
   * image for the primary name, else the cache entry, receiving and caching it first.
   */
  method PickSource(env: Env, st: State, filename: string)
    returns (r: Result<(Image, map<string, Slot>, map<string, Image>), Fault>)
    ensures r == AppendSource(env, st, filename)
  {
    var images, extra := st.channels, st.extra;
    if filename == env.primary {
      return Ok((st.image, images, extra));
    }
    if filename !in extra {
      var got := Recv(images, filename);
      if got.Err? {
        return Err(ChannelFault(got.error));
      }
      images := got.value.1;
      extra := extra[filename := got.value.0];
    }
    return Ok((extra[filename], images, extra));
  }

  /**
   * One `Append` action as the program performs it (src/main.rs:102-161): choose the filter,
   * pick the source, resize it, allocate the canvas and blit both images onto it.
   */
  method ApplyAppend(env: Env, st: State, filename: string, direction: Direction)
    returns (r: Result<State, Fault>)
    ensures r == Step(env, st, Append(filename, direction))
  {
    var lib, image := env.lib, st.image;
    var algorithm := if FlagIsEnabled(Get(env.flags, Flag.Lanczos3)) then FilterType.Lanczos3 else Nearest;
    var source := PickSource(env, st, filename);
    if source.Err? {
      return Err(source.error);
    }
    var (toAppend, images, extra) := source.value;
    var parent: Image;
    if direction == Up || direction == Down {
      toAppend := lib.resize(toAppend, image.width, APPEND_BOUND, algorithm);
      if image.height + toAppend.height >= U32_LIMIT {
        return Err(CanvasOverflow);
      }
      parent := Blank(image.width, image.height + toAppend.height);
    } else {
      toAppend := lib.resize(toAppend, APPEND_BOUND, image.height, algorithm);
      if image.width + toAppend.width >= U32_LIMIT {
        return Err(CanvasOverflow);
      }
      parent := Blank(image.width + toAppend.width, image.height);
    }
    assert toAppend == Fitted(lib, source.value.0, image, direction, Algorithm(env.flags));
    match direction {
      case Up =>
        parent := CopyFrom(parent, toAppend, 0, 0);
        parent := CopyFrom(parent, image, 0, toAppend.height);
      case Down =>
        parent := CopyFrom(parent, image, 0, 0);
        parent := CopyFrom(parent, toAppend, 0, image.height);
      case Left =>
        parent := CopyFrom(parent, toAppend, 0, 0);
        parent := CopyFrom(parent, image, toAppend.width, 0);
      case Right =>
        parent := CopyFrom(parent, image, 0, 0);
        parent := CopyFrom(parent, toAppend, image.width, 0);
    }
    return Ok(State(parent, st.format, images, extra));
  }

  /** One pass of the loop body of src/main.rs:55-163: the action's effect on the state. */
  method ApplyAction(env: Env, st: State, a: Action) returns (r: Result<State, Fault>)
    ensures r == Step(env, st, a)
  {
    var lib, image, outFormat := env.lib, st.image, st.format;
    match a {
      case Invert => image := lib.invert(image);
      case Contrast(c) => image := lib.adjustContrast(image, c);
      case Brightness(b) => image := lib.brighten(image, b);
      case Blur(s) => image := lib.blur(image, s);
      case Unsharpen(s, t) => image := lib.unsharpen(image, s, t);
      case Crop(x, y, w, h) => image := lib.crop(image, x, y, w, h);
      case Rotate(d) =>
        match d {
          case Right => image := lib.rotate90(image);
          case Left => image := lib.rotate270(image);
          case Down => image := lib.rotate180(image);
          case Up =>
        }
      case Flip(o) =>
        match o {
          case Vertical => image := lib.flipv(image);
          case Horizontal => image := lib.fliph(image);
        }
      case Scale(w, h) =>
        var algorithm := if FlagIsEnabled(Get(env.flags, Flag.Lanczos3)) then FilterType.Lanczos3 else Nearest;
        if w == 0 {
          image := lib.resize(image, U32_MAX, h, algorithm);
        } else if h == 0 {
          image := lib.resize(image, w, U32_MAX, algorithm);
        } else {
          image := lib.resizeExact(image, w, h, algorithm);
        }
      case Append(filename, direction) =>
        r := ApplyAppend(env, st, filename, direction);
        return;
      case Format(f) => outFormat := f;
    }
    return Ok(st.(image := image, format := outFormat));
  }

  /**
   * The program itself: the registry loop, the default format, the primary `recv` and the
   * `for` loop over the actions, with the working image, output format, channels and cache
   * as variables that each action updates.
   */
  method Execute(infile: string, outfile: string, actions: seq<Action>, flags: map<Flag, bool>,
                 imageNames: seq<string>, open: string -> Image, lib: Library)
    returns (spawned: seq<string>, r: Result<Output, Fault>)
    ensures spawned == Dedup(imageNames)
    ensures r == Run(infile, outfile, actions, flags, imageNames, open, lib)
  {
    var images;
    images, spawned := LoadImages(imageNames, open);
    var outFormat := DefaultFormat(outfile);
    var extra: map<string, Image> := map[];

    var first := Recv(images, infile);
    if first.Err? {
      return spawned, Err(ChannelFault(first.error));
    }
    var image: Image;
    image, images := first.value.0, first.value.1;

    var env := Env(infile, flags, lib);
    ghost var st0 := State(image, outFormat, images, extra);
    for i := 0 to |actions|
      invariant RunFrom(env, st0, actions[..i]) == Ok(State(image, outFormat, images, extra))
    {
      assert actions[..i + 1][..i] == actions[..i];
      var before := State(image, outFormat, images, extra);
      assert RunFrom(env, st0, actions[..i + 1]) == Step(env, before, actions[i]);
      var next := ApplyAction(env, before, actions[i]);
      if next.Err? {
        FaultPersists(env, st0, actions, i + 1);
        return spawned, Err(next.error);
      }
      image, outFormat, images, extra := next.value.image, next.value.format, next.value.channels, next.value.extra;
    }
    assert actions[..|actions|] == actions;
    r := Ok(Output(image, outFormat));
  }
}
