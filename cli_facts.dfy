/**
 * What the argument parser of src/cli.rs guarantees: when it returns, which images are
 * loaded, which actions run in which order, which flags are set, and which argument stops it.
 */
module CliFacts {
  import opened Common
  import opened Text
  import opened Actions
  import opened Cli

  /** The word that sets a flag. */
  function FlagWord(f: Flag): (r: string) {
    match f
    case Shrink => "shrink"
    case Vertical => "vertical"
  }

  /** The arguments with exactly one colon, in order. */
  function KeyValueArgs(mid: seq<string>): (r: seq<string>)
    decreases |mid|
  {
    if mid == [] then []
    else
      var last := mid[|mid| - 1];
      KeyValueArgs(mid[..|mid| - 1]) + if Count(last, ':') == 1 then [last] else []
  }

  /** The values of the `append:` arguments, in order. */
  function AppendTargets(mid: seq<string>): (r: seq<string>)
    decreases |mid|
  {
    if mid == [] then []
    else
      var last := mid[|mid| - 1];
      AppendTargets(mid[..|mid| - 1]) +
        match SplitKv(last) case Ok((k, v)) => (if k == "append" then [v] else []) case Err(_) => []
  }

  /**
   * A pair argument either pushes an action or halts; it only ever yields an `Append` for the
   * key `append`, with its value.
   */
  lemma PushedAppend(k: string, v: string, np: NumberParsers)
    ensures ClassifyPair(k, v, np).Push? || ClassifyPair(k, v, np).Stop?
    ensures ClassifyPair(k, v, np).Push? && ClassifyPair(k, v, np).action.Append? <==> k == "append"
    ensures k == "append" ==> ClassifyPair(k, v, np) == Push(Append(v))
  {
  }

  /** An argument without a colon is not a `key:value` pair. */
  lemma NoColonIsNotPair(arg: string)
    requires ':' !in arg
    ensures SplitKv(arg).Err?
  {
    assert Count(arg, ':') == 0;
  }

  /** An argument without a colon sets the flag it names, or is only reported. */
  lemma ColonFreeEffect(arg: string, np: NumberParsers)
    requires ':' !in arg
    ensures Classify(arg, np) ==
      if arg == "shrink" then SetFlag(Shrink) else if arg == "vertical" then SetFlag(Flag.Vertical) else Report
  {
    NoColonIsNotPair(arg);
  }

  /** Each flag word sets its flag. */
  lemma FlagWordSetsFlag(f: Flag, np: NumberParsers)
    ensures Classify(FlagWord(f), np) == SetFlag(f)
  {
    ColonFreeEffect(FlagWord(f), np);
  }

  /** Only a flag word sets a flag. */
  lemma OnlyFlagWordsSetFlags(arg: string, np: NumberParsers)
    ensures Classify(arg, np).SetFlag? ==> arg == FlagWord(Classify(arg, np).flag)
  {
    if SplitKv(arg).Ok? {
      var (k, v) := SplitKv(arg).value;
      PushedAppend(k, v, np);
    }
  }

  /** The flag words, and only they, set a flag. */
  lemma FlagWords(arg: string, np: NumberParsers)
    ensures forall f :: Classify(arg, np) == SetFlag(f) <==> arg == FlagWord(f)
  {
    forall f ensures Classify(arg, np) == SetFlag(f) <==> arg == FlagWord(f) {
      OnlyFlagWordsSetFlags(arg, np);
      if arg == FlagWord(f) {
        FlagWordSetsFlag(f, np);
      }
    }
  }

  /** The arguments that are not `key:value` pairs yield flags or reports, never actions. */
  lemma NonPairEffect(arg: string, np: NumberParsers)
    requires SplitKv(arg).Err?
    ensures Classify(arg, np).SetFlag? || Classify(arg, np).Report?
  {
  }

  // ---------------------------------------------------------------------------------------
  // The fold over effects

  /** The actions of the `Push` effects, in order. */
  function Pushed(es: seq<Effect>): (r: seq<Action>)
    decreases |es|
  {
    if es == [] then []
    else
      var e := es[|es| - 1];
      Pushed(es[..|es| - 1]) + if e.Push? then [e.action] else []
  }

  /** The names of the pushed `Append` actions, in order. */
  function Appended(es: seq<Effect>): (r: seq<string>)
    decreases |es|
  {
    if es == [] then []
    else
      var e := es[|es| - 1];
      Appended(es[..|es| - 1]) + if e.Push? && e.action.Append? then [e.action.filename] else []
  }

  /** The fold completes exactly when no effect is a `Stop`. */
  lemma {:induction false} AccumulateCompletes(infile: string, es: seq<Effect>)
    ensures Accumulate(infile, es).Ok? <==> forall i | 0 <= i < |es| :: !es[i].Stop?
    decreases |es|
  {
    if es != [] {
      var prefix := es[..|es| - 1];
      AccumulateCompletes(infile, prefix);
      if Accumulate(infile, es).Ok? {
        forall i | 0 <= i < |es| ensures !es[i].Stop? {
          if i < |prefix| {
            assert es[i] == prefix[i];
          }
        }
      } else if Accumulate(infile, prefix).Err? {
        var i :| 0 <= i < |prefix| && prefix[i].Stop?;
        assert es[i] == prefix[i];
      }
    }
  }

  /** A completed fold holds the input image followed by every appended name, and every pushed action in order. */
  lemma {:induction false} AccumulateLists(infile: string, es: seq<Effect>)
    requires Accumulate(infile, es).Ok?
    ensures Accumulate(infile, es).value.images == [infile] + Appended(es)
    ensures Accumulate(infile, es).value.actions == Pushed(es)
    decreases |es|
  {
    if es != [] {
      var prefix, e := es[..|es| - 1], es[|es| - 1];
      AccumulateLists(infile, prefix);
      var before := Accumulate(infile, prefix).value;
      assert Accumulate(infile, es) == Ok(Apply(before, e));
    }
  }

  /** A completed fold sets exactly the flags some effect sets, each to true. */
  lemma {:induction false} AccumulateFlags(infile: string, es: seq<Effect>)
    requires Accumulate(infile, es).Ok?
    ensures forall f :: f in Accumulate(infile, es).value.flags <==> SetFlag(f) in es
    ensures forall f | f in Accumulate(infile, es).value.flags :: Accumulate(infile, es).value.flags[f]
    decreases |es|
  {
    if es != [] {
      var prefix, e := es[..|es| - 1], es[|es| - 1];
      AccumulateFlags(infile, prefix);
      var before := Accumulate(infile, prefix).value;
      assert Accumulate(infile, es) == Ok(Apply(before, e));
      assert es == prefix + [e];
      assert forall f :: SetFlag(f) in es <==> SetFlag(f) in prefix || e == SetFlag(f);
    }
  }

  /** Every pushed `Append` names one of the appended images. */
  lemma {:induction false} PushedAppendsListed(es: seq<Effect>)
    ensures forall j | 0 <= j < |Pushed(es)| && Pushed(es)[j].Append? :: Pushed(es)[j].filename in Appended(es)
    decreases |es|
  {
    if es != [] {
      var prefix := es[..|es| - 1];
      PushedAppendsListed(prefix);
      forall j | 0 <= j < |Pushed(es)| && Pushed(es)[j].Append?
        ensures Pushed(es)[j].filename in Appended(es)
      {
        if j < |Pushed(prefix)| {
          assert Pushed(es)[j] == Pushed(prefix)[j];
        }
      }
    }
  }

  // ---------------------------------------------------------------------------------------
  // From effects back to arguments

  /** The appended names are the values of the `append:` arguments. */
  lemma {:induction false} EffectsAppended(mid: seq<string>, np: NumberParsers)
    ensures Appended(Effects(mid, np)) == AppendTargets(mid)
    decreases |mid|
  {
    if mid != [] {
      var n := |mid| - 1;
      var last := mid[n];
      EffectsPrefix(mid, n, np);
      EffectsAppended(mid[..n], np);
      assert Effects(mid, np)[n] == Classify(last, np);
      match SplitKv(last) {
        case Ok((k, v)) =>
          PushedAppend(k, v, np);
        case Err(_) =>
          NonPairEffect(last, np);
      }
    }
  }

  /** When no argument halts, there is one action per `key:value` argument, in order. */
  lemma {:induction false} EffectsPushed(mid: seq<string>, np: NumberParsers)
    requires forall i | 0 <= i < |mid| :: !Effects(mid, np)[i].Stop?
    ensures |Pushed(Effects(mid, np))| == |KeyValueArgs(mid)|
    ensures forall j | 0 <= j < |KeyValueArgs(mid)| :: Classify(KeyValueArgs(mid)[j], np) == Push(Pushed(Effects(mid, np))[j])
    decreases |mid|
  {
    if mid != [] {
      var n := |mid| - 1;
      var last := mid[n];
      var es := Effects(mid, np);
      EffectsPrefix(mid, n, np);
      assert forall i | 0 <= i < n :: !Effects(mid[..n], np)[i].Stop? by {
        forall i | 0 <= i < n ensures !Effects(mid[..n], np)[i].Stop? {
          assert Effects(mid[..n], np)[i] == es[i];
        }
      }
      EffectsPushed(mid[..n], np);
      assert es[n] == Classify(last, np);
      assert !es[n].Stop?;
      match SplitKv(last) {
        case Ok((k, v)) =>
          PushedAppend(k, v, np);
          assert KeyValueArgs(mid) == KeyValueArgs(mid[..n]) + [last];
        case Err(_) =>
          NonPairEffect(last, np);
          assert KeyValueArgs(mid) == KeyValueArgs(mid[..n]);
      }
    }
  }

  /** A flag is set by some argument exactly when its word is among the arguments. */
  lemma EffectsFlags(mid: seq<string>, np: NumberParsers)
    ensures forall f :: SetFlag(f) in Effects(mid, np) <==> FlagWord(f) in mid
  {
    var es := Effects(mid, np);
    forall f ensures SetFlag(f) in es <==> FlagWord(f) in mid {
      if SetFlag(f) in es {
        var i :| 0 <= i < |es| && es[i] == SetFlag(f);
        FlagWords(mid[i], np);
      }
      if FlagWord(f) in mid {
        var i :| 0 <= i < |mid| && mid[i] == FlagWord(f);
        FlagWords(mid[i], np);
        assert es[i] == SetFlag(f);
      }
    }
  }

  /**
   * `parse` returns exactly when there are at least three arguments, the second is not a help
   * word and no middle argument halts it; the result names the second argument as input and
   * the last as output, the images are the input followed by the `append:` values in order, there is one action per
   * `key:value` argument in order, and the flags set are those whose word appears, each true.
   */
  lemma ParseOutcome(args: seq<string>, np: NumberParsers)
    ensures ParseArgs(args, np).Ok? <==>
      |args| >= 3 && !IsHelp(args[1]) && forall i | 0 <= i < |Middle(args)| :: !Classify(Middle(args)[i], np).Stop?
    ensures ParseArgs(args, np).Ok? ==>
      var inv := ParseArgs(args, np).value;
      var mid := Middle(args);
      && inv.infile == args[1] && inv.outfile == args[|args| - 1]
      && inv.images == [args[1]] + AppendTargets(mid)
      && |inv.settings.actions| == |KeyValueArgs(mid)|
      && (forall j | 0 <= j < |KeyValueArgs(mid)| :: Classify(KeyValueArgs(mid)[j], np) == Push(inv.settings.actions[j]))
      && (forall f :: f in inv.settings.flags <==> FlagWord(f) in mid)
      && (forall f | f in inv.settings.flags :: inv.settings.flags[f])
  {
    if |args| >= 3 && !IsHelp(args[1]) {
      var mid := Middle(args);
      var es := Effects(mid, np);
      AccumulateCompletes(args[1], es);
      assert forall i | 0 <= i < |mid| :: es[i] == Classify(mid[i], np);
      if Accumulate(args[1], es).Ok? {
        AccumulateLists(args[1], es);
        AccumulateFlags(args[1], es);
        EffectsAppended(mid, np);
        EffectsPushed(mid, np);
        EffectsFlags(mid, np);
      }
    }
  }

  /** The early exits: too few arguments panic, and a help word exits with status 0. */
  lemma ParseEarlyExits(args: seq<string>, np: NumberParsers)
    ensures |args| < 2 ==> ParseArgs(args, np) == Err(IndexOutOfBounds)
    ensures |args| >= 2 && IsHelp(args[1]) ==> ParseArgs(args, np) == Err(Exit(0))
    ensures |args| == 2 && !IsHelp(args[1]) ==> ParseArgs(args, np) == Err(SliceOutOfRange)
  {
  }

  /** The first middle argument that halts decides the outcome; later arguments are never read. */
  lemma FirstHaltWins(args: seq<string>, np: NumberParsers, i: nat)
    requires |args| >= 3 && !IsHelp(args[1])
    requires i < |Middle(args)|
    requires forall j | 0 <= j < i :: !Classify(Middle(args)[j], np).Stop?
    requires Classify(Middle(args)[i], np).Stop?
    ensures ParseArgs(args, np) == Err(Classify(Middle(args)[i], np).halt)
  {
    var mid := Middle(args);
    var es := Effects(mid, np);
    var prefix := es[..i];
    assert forall j | 0 <= j < i :: prefix[j] == Classify(mid[j], np);
    AccumulateCompletes(args[1], prefix);
    assert es[..i + 1][..i] == prefix;
    assert es[..i + 1][i] == Classify(mid[i], np);
    HaltPersists(args[1], es, i + 1);
  }

  /** A `key:value` argument with an unknown key exits with status 1. */
  lemma UnknownKeyExits(arg: string, np: NumberParsers)
    requires SplitKv(arg).Ok?
    requires SplitKv(arg).value.0 !in {"contrast", "brightness", "blur", "resize", "append"}
    ensures Classify(arg, np) == Stop(Exit(1))
  {
  }

  /** A number that does not parse panics with the key (or the resize piece) in the message. */
  lemma InvalidNumberPanics(k: string, v: string, np: NumberParsers)
    ensures k == "contrast" && np.f32(v).None? ==> ClassifyPair(k, v, np) == Stop(ExpectFailed(k + ": Invalid value for " + v))
    ensures k == "brightness" && np.i32(v).None? ==> ClassifyPair(k, v, np) == Stop(ExpectFailed(k + ": Invalid value for " + v))
    ensures k == "blur" && np.f32(v).None? ==> ClassifyPair(k, v, np) == Stop(ExpectFailed(k + ": Invalid value for " + v))
    ensures var pieces := Split(v, ',');
      k == "resize" && np.u32(pieces[0]).None? ==>
      ClassifyPair(k, v, np) == Stop(ExpectFailed(pieces[0] + ": Invalid value for " + v))
    ensures var pieces := Split(v, ',');
      k == "resize" && np.u32(pieces[0]).Some? && |pieces| >= 2 && np.u32(pieces[1]).None? ==>
      ClassifyPair(k, v, np) == Stop(ExpectFailed(pieces[1] + ": Invalid value for " + v))
  {
  }

  /**
   * `resize:` reads the first two comma-separated pieces as width and height; further pieces
   * are ignored, and a single piece that parses panics on the missing height.
   */
  lemma {:induction false} ResizeArguments(a: string, b: string, extra: seq<string>, np: NumberParsers)
    requires ',' !in a && ',' !in b
    requires forall p | p in extra :: ',' !in p
    ensures np.u32(a).Some? && np.u32(b).Some? ==>
      ParseResize(Join([a, b] + extra, ','), np) == Push(Scale(np.u32(a).value, np.u32(b).value))
    ensures np.u32(a).Some? ==> ParseResize(a, np) == Stop(IndexOutOfBounds)
  {
    var parts := [a, b] + extra;
    forall p | p in parts ensures ',' !in p {
    }
    SplitJoin(parts, ',');
    SplitWithoutSeparator(a, ',');
  }

  /** Every image an `Append` action names is in the image list handed to the loader. */
  lemma ParseAppendsLoaded(args: seq<string>, np: NumberParsers)
    requires ParseArgs(args, np).Ok?
    ensures var inv := ParseArgs(args, np).value;
      && |inv.images| > 0 && inv.images[0] == inv.infile
      && forall j | 0 <= j < |inv.settings.actions| && inv.settings.actions[j].Append? ::
           inv.settings.actions[j].filename in inv.images
  {
    var es := Effects(Middle(args), np);
    AccumulateLists(args[1], es);
    PushedAppendsListed(es);
  }
}
