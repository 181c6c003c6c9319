/**
 * The argument parser of src/cli.rs: the command line is classified, argument by argument,
 * into actions, flags and the list of images to load.
 */
module Cli {
  import opened Common
  import opened Text
  import opened Actions

  datatype Settings = Settings(actions: seq<Action>, flags: map<Flag, bool>)

  /** How the parser ends the process instead of returning. */
  datatype Halt =
    | Exit(status: int)               // `std::process::exit`
    | IndexOutOfBounds                // a vector indexed past its end
    | SliceOutOfRange                 // `&args[2..args.len() - 1]` with only two arguments
    | ExpectFailed(message: string)   // `.expect(message)` on a number that does not parse; the
                                      // parse error Rust appends to the message is not modelled

  /** `((infile, outfile), settings, images)`. */
  datatype Invocation = Invocation(infile: string, outfile: string, settings: Settings, images: seq<string>)

  /** `str::parse` for `f32`, `i32` and `u32`: library routines, given as partial functions. */
  datatype NumberParsers = NumberParsers(
    f32: string -> Option<F32>,
    i32: string -> Option<i32>,
    u32: string -> Option<u32>)

  predicate IsHelp(arg: string) {
    arg == "--help" || arg == "-h" || arg == "/h" || arg == "help"
  }

  /** `split_kv`: a `key:value` argument is one with exactly one colon. */
  function SplitKv(s: string): (r: Result<(string, string), string>)
    ensures r.Ok? <==> Count(s, ':') == 1
    ensures r.Ok? ==> ':' !in r.value.0 && ':' !in r.value.1 && s == r.value.0 + ":" + r.value.1
    ensures r.Err? ==> r.error == "Parse error on argument: " + s
  {
    var split := Split(s, ':');
    SplitCount(s, ':');
    SplitPiecesFree(s, ':');
    SplitJoinsBack(s, ':');
    if |split| != 2 then Err("Parse error on argument: " + s)
    else
      assert split[1..] == [split[1]];
      assert Join(split, ':') == split[0] + ":" + split[1];
      Ok((split[0], split[1]))
  }

  /** Every colon-free key and value round-trip through `split_kv`. */
  lemma SplitKvOfPair(k: string, v: string)
    requires ':' !in k && ':' !in v
    ensures SplitKv(k + ":" + v) == Ok((k, v))
  {
    assert [k, v][1..] == [v];
    assert Join([k, v], ':') == k + ":" + v;
    SplitJoin([k, v], ':');
  }

  /** What one argument between the input and output names does. */
  datatype Effect = Push(action: Action) | SetFlag(flag: Flag) | Report | Stop(halt: Halt)

  /** The message `.expect` is given when a number does not parse. */
  function InvalidValue(what: string, v: string): (r: string) {
    what + ": Invalid value for " + v
  }

  /** `resize:w,h`: the first two comma-separated pieces; further pieces are ignored. */
  function ParseResize(v: string, np: NumberParsers): (r: Effect) {
    var pieces := Split(v, ',');
    match np.u32(pieces[0])
    case None => Stop(ExpectFailed(InvalidValue(pieces[0], v)))
    case Some(w) =>
      if |pieces| < 2 then Stop(IndexOutOfBounds)
      else match np.u32(pieces[1])
        case None => Stop(ExpectFailed(InvalidValue(pieces[1], v)))
        case Some(h) => Push(Scale(w, h))
  }

  /** A `key:value` argument (src/cli.rs:73-118). */
  function ClassifyPair(k: string, v: string, np: NumberParsers): (r: Effect) {
    if k == "contrast" then
      (match np.f32(v) case Some(c) => Push(Contrast(c)) case None => Stop(ExpectFailed(InvalidValue(k, v))))
    else if k == "brightness" then
      (match np.i32(v) case Some(b) => Push(Brightness(b)) case None => Stop(ExpectFailed(InvalidValue(k, v))))
    else if k == "blur" then
      (match np.f32(v) case Some(b) => Push(Blur(b)) case None => Stop(ExpectFailed(InvalidValue(k, v))))
    else if k == "resize" then ParseResize(v, np)
    else if k == "append" then Push(Append(v))
    else Stop(Exit(1))
  }

  /** Any argument: a `key:value` pair, a flag word, or something that is only reported. */
  function Classify(arg: string, np: NumberParsers): (r: Effect) {
    match SplitKv(arg)
    case Ok((k, v)) => ClassifyPair(k, v, np)
    case Err(_) =>
      if arg == "shrink" then SetFlag(Shrink)
      else if arg == "vertical" then SetFlag(Flag.Vertical)
      else Report
  }

  /** What the loop has built so far. */
  datatype Acc = Acc(actions: seq<Action>, flags: map<Flag, bool>, images: seq<string>)

  function Apply(acc: Acc, e: Effect): (r: Acc) {
    match e
    case Push(a) =>
      Acc(acc.actions + [a], acc.flags, if a.Append? then acc.images + [a.filename] else acc.images)
    case SetFlag(f) => acc.(flags := acc.flags[f := true])
    case _ => acc
  }

  /** The effects folded in order, starting from the image list `[infile]`; the first `Stop` wins. */
  function Accumulate(infile: string, effects: seq<Effect>): (r: Result<Acc, Halt>)
    decreases |effects|
  {
    if effects == [] then Ok(Acc([], map[], [infile]))
    else match Accumulate(infile, effects[..|effects| - 1])
      case Err(h) => Err(h)
      case Ok(acc) =>
        var e := effects[|effects| - 1];
        if e.Stop? then Err(e.halt) else Ok(Apply(acc, e))
  }

  /** What each argument does, in order. */
  function Effects(mid: seq<string>, np: NumberParsers): (es: seq<Effect>)
    ensures |es| == |mid|
  {
    seq(|mid|, i requires 0 <= i < |mid| => Classify(mid[i], np))
  }

  /** The arguments classified in order. */
  function ClassifyAll(infile: string, mid: seq<string>, np: NumberParsers): (r: Result<Acc, Halt>) {
    Accumulate(infile, Effects(mid, np))
  }

  /** The arguments strictly between the input name `args[1]` and the output name. */
  function Middle(args: seq<string>): (r: seq<string>)
    requires |args| >= 3
  {
    args[2..|args| - 1]
  }

  /** `parse`, given `env::args()`. */
  function ParseArgs(args: seq<string>, np: NumberParsers): (r: Result<Invocation, Halt>) {
    if |args| < 2 then Err(IndexOutOfBounds)
    else if IsHelp(args[1]) then Err(Exit(0))
    else if |args| < 3 then Err(SliceOutOfRange)
    else match ClassifyAll(args[1], Middle(args), np)
      case Err(h) => Err(h)
      case Ok(acc) => Ok(Invocation(args[1], args[|args| - 1], Settings(acc.actions, acc.flags), acc.images))
  }

  /** Once a prefix of the effects halts the fold, the whole fold halts the same way. */
  lemma {:induction false} HaltPersists(infile: string, effects: seq<Effect>, n: nat)
    requires n <= |effects|
    requires Accumulate(infile, effects[..n]).Err?
    ensures Accumulate(infile, effects) == Accumulate(infile, effects[..n])
    decreases |effects|
  {
    if n < |effects| {
      var prefix := effects[..|effects| - 1];
      assert prefix[..n] == effects[..n];
      HaltPersists(infile, prefix, n);
    } else {
      assert effects[..n] == effects;
    }
  }

  /** The effects of a prefix of the arguments are a prefix of the effects. */
  lemma EffectsPrefix(mid: seq<string>, n: nat, np: NumberParsers)
    requires n <= |mid|
    ensures Effects(mid[..n], np) == Effects(mid, np)[..n]
  {
  }

  /** A `key:value` argument as the loop body handles it (src/cli.rs:73-118). */
  method ParsePair(k: string, v: string, np: NumberParsers) returns (e: Effect)
    ensures e == ClassifyPair(k, v, np)
  {
    if k == "contrast" {
      var c := np.f32(v);
      if c.None? {
        return Stop(ExpectFailed(InvalidValue(k, v)));
      }
      e := Push(Contrast(c.value));
    } else if k == "brightness" {
      var b := np.i32(v);
      if b.None? {
        return Stop(ExpectFailed(InvalidValue(k, v)));
      }
      e := Push(Brightness(b.value));
    } else if k == "blur" {
      var b := np.f32(v);
      if b.None? {
        return Stop(ExpectFailed(InvalidValue(k, v)));
      }
      e := Push(Blur(b.value));
    } else if k == "resize" {
      var resizeArguments := Split(v, ',');
      var w := np.u32(resizeArguments[0]);
      if w.None? {
        return Stop(ExpectFailed(InvalidValue(resizeArguments[0], v)));
      }
      if |resizeArguments| < 2 {
        return Stop(IndexOutOfBounds);
      }
      var h := np.u32(resizeArguments[1]);
      if h.None? {
        return Stop(ExpectFailed(InvalidValue(resizeArguments[1], v)));
      }
      e := Push(Scale(w.value, h.value));
    } else if k == "append" {
      e := Push(Append(v));
    } else {
      e := Stop(Exit(1));
    }
  }

  /**
   * One argument as the loop body inspects it (src/cli.rs:69-137): a `key:value` pair is
   * turned into an action, a flag word sets its flag, anything else is only reported.
   */
  method ClassifyArgument(arg: string, np: NumberParsers) returns (e: Effect)
    ensures e == Classify(arg, np)
  {
    var step := SplitKv(arg);
    match step {
      case Ok((k, v)) =>
        e := ParsePair(k, v, np);
      case Err(_) =>
        if arg == "shrink" {
          e := SetFlag(Shrink);
        } else if arg == "vertical" {
          e := SetFlag(Flag.Vertical);
        } else {
          e := Report;
        }
    }
  }

  /** `parse` as written: a loop that pushes actions and images and inserts flags. */
  method Parse(args: seq<string>, np: NumberParsers) returns (r: Result<Invocation, Halt>)
    ensures r == ParseArgs(args, np)
  {
    if |args| < 2 {
      return Err(IndexOutOfBounds);
    }
    if IsHelp(args[1]) {
      return Err(Exit(0));
    }
    var infile := args[1];
    var outfile := args[|args| - 1];
    var actions: seq<Action> := [];
    var flags: map<Flag, bool> := map[];
    var images := [infile];
    if |args| < 3 {
      return Err(SliceOutOfRange);
    }
    var mid := args[2..|args| - 1];
    ghost var effects := Effects(mid, np);
    for i := 0 to |mid|
      invariant Accumulate(infile, effects[..i]) == Ok(Acc(actions, flags, images))
    {
      assert effects[..i + 1][..i] == effects[..i];
      var e := ClassifyArgument(mid[i], np);
      assert e == effects[i];
      match e {
        case Stop(h) =>
          HaltPersists(infile, effects, i + 1);
          return Err(h);
        case Push(action) =>
          if action.Append? {
            images := images + [action.filename];
          }
          actions := actions + [action];
        case SetFlag(f) =>
          flags := flags[f := true];
        case Report =>
      }
    }
    assert effects[..|mid|] == effects;
    return Ok(Invocation(infile, outfile, Settings(actions, flags), images));
  }
}
