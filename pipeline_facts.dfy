/**
 * What the executor of src/main.rs guarantees: which output format wins, that every channel
 * is received at most once and the cache is never changed, which faults can happen, and the
 * geometry of each action.
 */
module PipelineFacts {
  import opened Common
  import opened Raster
  import opened MainActions
  import opened Registry
  import opened Compose
  import opened Pipeline

  // ---------------------------------------------------------------------------------------
  // Output format

  /** Reference definition: the payload of the last `Format` action, else `default`. */
  function LastFormat(actions: seq<Action>, default: OutputFormat): (r: OutputFormat)
    decreases |actions|
  {
    if actions == [] then default
    else if actions[|actions| - 1].Format? then actions[|actions| - 1].format
    else LastFormat(actions[..|actions| - 1], default)
  }

  lemma {:induction false} RunFromFormat(env: Env, st: State, actions: seq<Action>)
    ensures RunFrom(env, st, actions).Ok? ==>
      RunFrom(env, st, actions).value.format == LastFormat(actions, st.format)
    decreases |actions|
  {
    if actions != [] {
      RunFromFormat(env, st, actions[..|actions| - 1]);
    }
  }

  /** The written format is the last `Format` action's, or the one the output name selects. */
  lemma RunFormat(infile: string, outfile: string, actions: seq<Action>, flags: map<Flag, bool>,
                  imageNames: seq<string>, open: string -> Image, lib: Library)
    ensures var r := Run(infile, outfile, actions, flags, imageNames, open, lib);
      r.Ok? ==> r.value.format == LastFormat(actions, DefaultFormat(outfile))
  {
    var ch := ChannelsFor(imageNames, open);
    if Recv(ch, infile).Ok? {
      var (image, channels) := Recv(ch, infile).value;
      RunFromFormat(Env(infile, flags, lib), State(image, DefaultFormat(outfile), channels, map[]), actions);
    }
  }

  /** `Format(f)` sets the output format and nothing else. */
  lemma FormatOnlySetsFormat(env: Env, st: State, f: OutputFormat)
    ensures Step(env, st, Format(f)) == Ok(st.(format := f))
  {
  }

  /** Reference definition: the actions with every `Format` action removed. */
  function WithoutFormats(actions: seq<Action>): (r: seq<Action>)
    ensures forall i | 0 <= i < |r| :: !r[i].Format?
    decreases |actions|
  {
    if actions == [] then []
    else
      var a := actions[|actions| - 1];
      WithoutFormats(actions[..|actions| - 1]) + (if a.Format? then [] else [a])
  }

  /** Any other action neither reads nor writes the output format. */
  lemma StepIgnoresFormat(env: Env, st: State, a: Action, g: OutputFormat)
    requires !a.Format?
    ensures Step(env, st.(format := g), a).Ok? <==> Step(env, st, a).Ok?
    ensures Step(env, st, a).Ok? ==>
      Step(env, st.(format := g), a).value == Step(env, st, a).value.(format := g)
    ensures Step(env, st, a).Err? ==> Step(env, st.(format := g), a) == Step(env, st, a)
  {
  }

  /**
   * `Format` actions touch no pixel, channel or cache entry: removing them all gives the same
   * fault, or the same image, channels and cache.
   */
  lemma {:induction false} FormatsTouchNoPixels(env: Env, st: State, actions: seq<Action>)
    ensures RunFrom(env, st, actions).Err? ==>
      RunFrom(env, st, WithoutFormats(actions)) == RunFrom(env, st, actions)
    ensures RunFrom(env, st, actions).Ok? ==>
      && RunFrom(env, st, WithoutFormats(actions)).Ok?
      && RunFrom(env, st, WithoutFormats(actions)).value ==
         RunFrom(env, st, actions).value.(format := st.format)
    decreases |actions|
  {
    if actions != [] {
      var prefix, a := actions[..|actions| - 1], actions[|actions| - 1];
      FormatsTouchNoPixels(env, st, prefix);
      var kept := WithoutFormats(prefix);
      var r := RunFrom(env, st, prefix);
      if a.Format? {
        assert WithoutFormats(actions) == kept;
      } else {
        var both := kept + [a];
        assert WithoutFormats(actions) == both;
        assert both[..|both| - 1] == kept;
        if r.Ok? {
          StepIgnoresFormat(env, r.value, a, st.format);
        }
      }
    }
  }

  // ---------------------------------------------------------------------------------------
  // Channels and cache

  /**
   * The channel discipline: the set of channels never changes; a channel has been received
   * exactly when it is the primary image's or its image is cached; an unreceived channel still
   * holds its decoded image; and the cache holds exactly the images that were delivered.
   */
  ghost predicate Disciplined(primary: string, open: string -> Image, keys: set<string>, st: State) {
    && st.channels.Keys == keys
    && st.extra.Keys <= keys
    && primary !in st.extra
    && (forall k | k in st.channels ::
          st.channels[k] == if k == primary || k in st.extra then Taken else Ready(open(k)))
    && (forall k | k in st.extra :: st.extra[k] == open(k))
  }

  /** Every appended name has a channel. */
  predicate AppendsCovered(actions: seq<Action>, keys: set<string>) {
    forall i | 0 <= i < |actions| :: actions[i].Append? ==> actions[i].filename in keys
  }

  /**
   * A secondary image is always appended as decoded, however often it was appended before:
   * the copy taken from the cache is never the result of an earlier resize.
   */
  lemma SecondarySourceIsOriginal(env: Env, open: string -> Image, keys: set<string>, st: State,
                                  filename: string)
    requires Disciplined(env.primary, open, keys, st)
    requires filename != env.primary
    requires AppendSource(env, st, filename).Ok?
    ensures AppendSource(env, st, filename).value.0 == open(filename)
  {
  }

  /** The primary name appends the working image as transformed so far, touching no channel. */
  lemma PrimarySourceIsWorkingImage(env: Env, st: State)
    ensures AppendSource(env, st, env.primary) == Ok((st.image, st.channels, st.extra))
  {
  }

  /**
   * One action keeps the discipline and only adds to the cache. It never receives from a
   * channel twice: it can fault only by overflowing the canvas or by naming an image that has
   * no channel.
   */
  lemma StepDisciplined(env: Env, open: string -> Image, keys: set<string>, st: State, a: Action)
    requires Disciplined(env.primary, open, keys, st)
    ensures Step(env, st, a).Ok? ==>
      && Disciplined(env.primary, open, keys, Step(env, st, a).value)
      && st.extra.Keys <= Step(env, st, a).value.extra.Keys
    ensures Step(env, st, a).Err? ==>
      || Step(env, st, a).error == CanvasOverflow
      || (a.Append? && a.filename !in keys && Step(env, st, a).error == ChannelFault(NoChannel(a.filename)))
  {
    if a.Append? {
      SourceDisciplined(env, open, keys, st, a.filename);
    }
  }

  /** Picking the source of an `Append` keeps the discipline and only adds to the cache. */
  lemma SourceDisciplined(env: Env, open: string -> Image, keys: set<string>, st: State, filename: string)
    requires Disciplined(env.primary, open, keys, st)
    ensures AppendSource(env, st, filename).Ok? ==>
      var (_, channels, extra) := AppendSource(env, st, filename).value;
      && Disciplined(env.primary, open, keys, st.(channels := channels, extra := extra))
      && st.extra.Keys <= extra.Keys
    ensures AppendSource(env, st, filename).Err? ==>
      filename !in keys && AppendSource(env, st, filename).error == ChannelFault(NoChannel(filename))
  {
    if filename != env.primary && filename !in st.extra && filename in keys {
      assert st.channels[filename] == Ready(open(filename));
    }
  }

  /**
   * The discipline holds throughout a run and cached images never change; when every
   * appended name has a channel, the only possible fault is a canvas overflow.
   */
  lemma {:induction false} RunFromDisciplined(env: Env, open: string -> Image, keys: set<string>,
                                              st: State, actions: seq<Action>)
    requires Disciplined(env.primary, open, keys, st)
    ensures RunFrom(env, st, actions).Ok? ==>
      && Disciplined(env.primary, open, keys, RunFrom(env, st, actions).value)
      && (forall k | k in st.extra ::
            k in RunFrom(env, st, actions).value.extra && RunFrom(env, st, actions).value.extra[k] == st.extra[k])
    ensures AppendsCovered(actions, keys) && RunFrom(env, st, actions).Err? ==>
      RunFrom(env, st, actions).error == CanvasOverflow
    decreases |actions|
  {
    if actions != [] {
      var prefix := actions[..|actions| - 1];
      var a := actions[|actions| - 1];
      RunFromDisciplined(env, open, keys, st, prefix);
      assert AppendsCovered(actions, keys) ==> AppendsCovered(prefix, keys) by {
        if AppendsCovered(actions, keys) {
          forall i | 0 <= i < |prefix| && prefix[i].Append? ensures prefix[i].filename in keys {
            assert prefix[i] == actions[i];
          }
        }
      }
      if RunFrom(env, st, prefix).Ok? {
        var mid := RunFrom(env, st, prefix).value;
        StepDisciplined(env, open, keys, mid, a);
        assert AppendsCovered(actions, keys) && a.Append? ==> a.filename in keys;
      }
    }
  }

  /** Right after the primary `recv` the discipline holds, with an empty cache. */
  lemma InitiallyDisciplined(infile: string, imageNames: seq<string>, open: string -> Image,
                             format: OutputFormat)
    requires infile in imageNames
    ensures Recv(ChannelsFor(imageNames, open), infile).Ok?
    ensures var (image, channels) := Recv(ChannelsFor(imageNames, open), infile).value;
      && image == open(infile)
      && Disciplined(infile, open, NameSet(imageNames), State(image, format, channels, map[]))
  {
  }

  /**
   * A run fails only when the primary image or an appended image was never given a channel,
   * or when a canvas would overflow `u32`; no channel is ever received twice.
   */
  lemma RunFaults(infile: string, outfile: string, actions: seq<Action>, flags: map<Flag, bool>,
                  imageNames: seq<string>, open: string -> Image, lib: Library)
    ensures infile !in imageNames ==>
      Run(infile, outfile, actions, flags, imageNames, open, lib) == Err(ChannelFault(NoChannel(infile)))
    ensures infile in imageNames && AppendsCovered(actions, NameSet(imageNames)) ==>
      var r := Run(infile, outfile, actions, flags, imageNames, open, lib);
      r.Ok? || r == Err(CanvasOverflow)
  {
    if infile in imageNames {
      var keys := NameSet(imageNames);
      InitiallyDisciplined(infile, imageNames, open, DefaultFormat(outfile));
      var (image, channels) := Recv(ChannelsFor(imageNames, open), infile).value;
      var st := State(image, DefaultFormat(outfile), channels, map[]);
      assert Disciplined(infile, open, keys, st);
      RunFromDisciplined(Env(infile, flags, lib), open, keys, st, actions);
    }
  }

  // ---------------------------------------------------------------------------------------
  // Geometry

  lemma RotateUpIsIdentity(env: Env, st: State)
    ensures Step(env, st, Rotate(Up)) == Ok(st)
  {
  }

  /** Quarter turns swap width and height; a half turn or no turn keeps them. */
  lemma RotateSize(env: Env, st: State, d: Direction)
    requires Sound(env.lib)
    ensures Step(env, st, Rotate(d)).Ok?
    ensures var img := Step(env, st, Rotate(d)).value.image;
      && (d == Left || d == Right ==> Transposed(img, st.image))
      && (d == Up || d == Down ==> SameSize(img, st.image))
  {
  }

  /** Two half turns keep the size. */
  lemma HalfTurnTwiceKeepsSize(env: Env, st: State)
    requires Sound(env.lib)
    ensures RunFrom(env, st, [Rotate(Down), Rotate(Down)]).Ok?
    ensures SameSize(RunFrom(env, st, [Rotate(Down), Rotate(Down)]).value.image, st.image)
  {
    assert [Rotate(Down), Rotate(Down)][..1] == [Rotate(Down)];
    assert [Rotate(Down)][..0] == [];
  }

  /**
   * `Scale(w, h)`: both sides given gives exactly that size; a zero side is computed by the
   * library within the other bound.
   */
  lemma ScaleSize(env: Env, st: State, w: u32, h: u32)
    requires Sound(env.lib)
    ensures Step(env, st, Scale(w, h)).Ok?
    ensures var img := Step(env, st, Scale(w, h)).value.image;
      && (w != 0 && h != 0 ==> img.width == w && img.height == h)
      && (w == 0 ==> img.height <= BoxSide(h))
      && (w != 0 && h == 0 ==> img.width <= w)
  {
  }

  /**
   * A successful `Append` replaces the working image by the composite of the old working
   * image and the fitted source, with both at the origins of the direction table. When the
   * working image has pixels along the side the source is fitted to, the resize makes the two
   * aligned, so both appear intact; otherwise the canvas has no pixels at all.
   */
  lemma AppendComposes(env: Env, st: State, filename: string, d: Direction)
    requires Sound(env.lib)
    requires Step(env, st, Append(filename, d)).Ok?
    ensures AppendSource(env, st, filename).Ok?
    ensures var src := AppendSource(env, st, filename).value.0;
      var appended := Fitted(env.lib, src, st.image, d, Algorithm(env.flags));
      && ((if IsVertical(d) then st.image.width > 0 else st.image.height > 0) ==> Aligned(st.image, appended, d))
      && Representable(st.image, appended, d)
      && Step(env, st, Append(filename, d)).value.image == Composite(st.image, appended, d)
  {
    var src := AppendSource(env, st, filename).value.0;
    var appended := Fitted(env.lib, src, st.image, d, Algorithm(env.flags));
    if if IsVertical(d) then st.image.width > 0 else st.image.height > 0 {
      BlitsAreComposite(st.image, appended, d);
    } else {
      EmptySideBlits(st.image, appended, d);
    }
  }
}
