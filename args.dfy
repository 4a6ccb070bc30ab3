/**
 * parse_args() (src/main.cpp): the command line to the start-up settings, or
 * to one of its two early exits (the usage text, an unknown flag).
 */
module Args {
  import opened Wrappers

  /** The globals parse_args() sets; None stands for a NULL path. */
  datatype Config = Config(
    bios: Option<string>,
    cart: Option<string>,
    overlay: Option<string>,
    fullscreen: bool,
    debug: bool,
    mute: bool)

  /** What the command line leads to: a run, the usage text and exit, or an exit on an unknown flag. */
  datatype Parsed = Run(config: Config) | Help | UnknownFlag(arg: string)

  /** The settings before any argument is read. */
  const DEFAULT_CONFIG: Config := Config(Some("bios.bin"), None, None, false, false, false)

  /** The branch of parse_args() an argument selects. */
  datatype Kind = HelpOption | BiosOption | OverlayOption | FullscreenOption | DebugOption | MuteOption | Plain

  /** The long and short spellings parse_args() compares with strcmp. */
  function KindOf(a: string): (k: Kind)
    ensures k != Plain ==> 2 <= |a| && a[0] == '-'
  {
    if a == "--help" || a == "-h" then HelpOption
    else if a == "--bios" || a == "-b" then BiosOption
    else if a == "--overlay" || a == "-o" then OverlayOption
    else if a == "--fullscreen" || a == "-f" then FullscreenOption
    else if a == "--debug" || a == "-d" then DebugOption
    else if a == "--mute" || a == "-m" then MuteOption
    else Plain
  }

  /** The arguments parse_args() recognises. */
  predicate IsOption(a: string)
  {
    KindOf(a) != Plain
  }

  /** argv[j]; the C runtime guarantees argv[argc] is NULL. */
  function ArgAt(argv: seq<string>, j: nat): Option<string>
  {
    if j < |argv| then Some(argv[j]) else None
  }

  /** The rest of the loop from argument i on, with the settings read so far. */
  function ParseFrom(argv: seq<string>, i: nat, cfg: Config): Parsed
    decreases |argv| - i
  {
    if i >= |argv| then Run(cfg)
    else
      match KindOf(argv[i])
      case HelpOption => Help
      case BiosOption => ParseFrom(argv, i + 2, cfg.(bios := ArgAt(argv, i + 1)))
      case OverlayOption => ParseFrom(argv, i + 2, cfg.(overlay := ArgAt(argv, i + 1)))
      case FullscreenOption => ParseFrom(argv, i + 1, cfg.(fullscreen := true))
      case DebugOption => ParseFrom(argv, i + 1, cfg.(debug := true))
      case MuteOption => ParseFrom(argv, i + 1, cfg.(mute := true))
      case Plain => if i == |argv| - 1 then Run(cfg.(cart := Some(argv[i]))) else UnknownFlag(argv[i])
  }

  /** The whole command line; argv[0] is the program name and is skipped. */
  function Parse(argv: seq<string>): Parsed
  {
    ParseFrom(argv, 1, DEFAULT_CONFIG)
  }

  /** parse_args(): the loop over argv, assigning the settings as it goes. */
  method ParseArgs(argv: seq<string>) returns (r: Parsed)
    ensures r == Parse(argv)
  {
    var bios: Option<string> := Some("bios.bin");
    var cart: Option<string> := None;
    var overlay: Option<string> := None;
    var fullscreen, debug, mute := false, false, false;
    var i := 1;
    while i < |argv|
      invariant Parse(argv) == ParseFrom(argv, i, Config(bios, cart, overlay, fullscreen, debug, mute))
      decreases |argv| - i
    {
      var a := argv[i];
      match KindOf(a) {
        case HelpOption =>
          return Help;
        case BiosOption =>
          i := i + 1;
          bios := ArgAt(argv, i);
        case OverlayOption =>
          i := i + 1;
          overlay := ArgAt(argv, i);
        case FullscreenOption =>
          fullscreen := true;
        case DebugOption =>
          debug := true;
        case MuteOption =>
          mute := true;
        case Plain =>
          if i == |argv| - 1 {
            cart := Some(a);
          } else {
            return UnknownFlag(a);
          }
      }
      i := i + 1;
    }
    r := Run(Config(bios, cart, overlay, fullscreen, debug, mute));
  }

  // ---------------------------------------------------------------------
  // Properties
  // ---------------------------------------------------------------------

  /** Parsing from position |p| + j of p + q is parsing q from position j. */
  lemma {:induction false} ParseShift(p: seq<string>, q: seq<string>, j: nat, cfg: Config)
    ensures ParseFrom(p + q, |p| + j, cfg) == ParseFrom(q, j, cfg)
    decreases |q| - j
  {
    var pq := p + q;
    if j < |q| {
      assert pq[|p| + j] == q[j];
      assert ArgAt(pq, |p| + j + 1) == ArgAt(q, j + 1);
      match KindOf(q[j])
      case HelpOption =>
      case BiosOption => ParseShift(p, q, j + 2, cfg.(bios := ArgAt(q, j + 1)));
      case OverlayOption => ParseShift(p, q, j + 2, cfg.(overlay := ArgAt(q, j + 1)));
      case FullscreenOption => ParseShift(p, q, j + 1, cfg.(fullscreen := true));
      case DebugOption => ParseShift(p, q, j + 1, cfg.(debug := true));
      case MuteOption => ParseShift(p, q, j + 1, cfg.(mute := true));
      case Plain =>
    }
  }

  /**
   * The two early results and the cart: an unknown flag is an argument that
   * is not an option and stands before the last position; a cart the loop
   * sets is the last argument.
   */
  lemma {:induction false} ParseOutcomes(argv: seq<string>, i: nat, cfg: Config)
    ensures var r := ParseFrom(argv, i, cfg);
            && (r.UnknownFlag? ==> i < |argv| - 1 && !IsOption(r.arg) && r.arg in argv[i..|argv| - 1])
            && (r.Run? && r.config.cart != cfg.cart ==> |argv| > 0 && r.config.cart == Some(argv[|argv| - 1]))
    decreases |argv| - i
  {
    if i < |argv| {
      match KindOf(argv[i])
      case HelpOption =>
      case BiosOption => ParseOutcomes(argv, i + 2, cfg.(bios := ArgAt(argv, i + 1)));
      case OverlayOption => ParseOutcomes(argv, i + 2, cfg.(overlay := ArgAt(argv, i + 1)));
      case FullscreenOption => ParseOutcomes(argv, i + 1, cfg.(fullscreen := true));
      case DebugOption => ParseOutcomes(argv, i + 1, cfg.(debug := true));
      case MuteOption => ParseOutcomes(argv, i + 1, cfg.(mute := true));
      case Plain =>
        if i < |argv| - 1 {
          assert argv[i] == argv[i..|argv| - 1][0];
        }
    }
  }

  /** A command line that spells out every setting of cfg. */
  function CommandLine(prog: string, cfg: Config): seq<string>
    requires cfg.bios.Some?
  {
    [prog] + (["--bios", cfg.bios.value] + OptionalArgs(cfg))
  }

  function OptionalArgs(cfg: Config): seq<string>
  {
    (if cfg.overlay.Some? then ["--overlay", cfg.overlay.value] else [])
    + ((if cfg.fullscreen then ["--fullscreen"] else [])
    + ((if cfg.debug then ["--debug"] else [])
    + ((if cfg.mute then ["--mute"] else [])
    + (if cfg.cart.Some? then [cfg.cart.value] else []))))
  }

  /**
   * Any start-up setting with a BIOS path and a cart path that is not itself
   * an option comes back from its command line: the options may take any path
   * as their argument, and the last unrecognised argument is the cart.
   */
  lemma RoundTrip(prog: string, cfg: Config)
    requires cfg.bios.Some?
    requires cfg.cart.Some? ==> !IsOption(cfg.cart.value)
    ensures Parse(CommandLine(prog, cfg)) == Run(cfg)
  {
    var c0 := DEFAULT_CONFIG.(bios := cfg.bios);
    var c1 := c0.(overlay := cfg.overlay);
    var c2 := c1.(fullscreen := cfg.fullscreen);
    var c3 := c2.(debug := cfg.debug);
    var c4 := c3.(mute := cfg.mute);
    var s6 := if cfg.cart.Some? then [cfg.cart.value] else [];
    var s5 := (if cfg.mute then ["--mute"] else []) + s6;
    var s4 := (if cfg.debug then ["--debug"] else []) + s5;
    var s3 := (if cfg.fullscreen then ["--fullscreen"] else []) + s4;
    var s2 := (if cfg.overlay.Some? then ["--overlay", cfg.overlay.value] else []) + s3;
    calc {
      Parse(CommandLine(prog, cfg));
      ParseFrom([prog] + (["--bios", cfg.bios.value] + s2), |[prog]| + 0, DEFAULT_CONFIG);
      { ParseShift([prog], ["--bios", cfg.bios.value] + s2, 0, DEFAULT_CONFIG); }
      ParseFrom(["--bios", cfg.bios.value] + s2, 0, DEFAULT_CONFIG);
      { Step(true, ["--bios", cfg.bios.value], s2, DEFAULT_CONFIG, c0); }
      ParseFrom(s2, 0, c0);
      { Step(cfg.overlay.Some?, ["--overlay", if cfg.overlay.Some? then cfg.overlay.value else ""], s3, c0, c1); }
      ParseFrom(s3, 0, c1);
      { Step(cfg.fullscreen, ["--fullscreen"], s4, c1, c2); }
      ParseFrom(s4, 0, c2);
      { Step(cfg.debug, ["--debug"], s5, c2, c3); }
      ParseFrom(s5, 0, c3);
      { Step(cfg.mute, ["--mute"], s6, c3, c4); }
      ParseFrom(s6, 0, c4);
      { if cfg.cart.Some? { CartIsLast(s6, c4); } }
      Run(cfg);
    }
  }

  /**
   * What one argument does, wherever it stands: help exits whatever follows;
   * --bios and --overlay take the next argument verbatim, even one that looks
   * like an option, and parsing resumes after it; the flags set their setting;
   * an unrecognised argument is the cart if it is last and an unknown flag
   * otherwise.
   */
  lemma ArgumentSemantics(argv: seq<string>, i: nat, cfg: Config)
    requires i < |argv|
    ensures KindOf(argv[i]) == HelpOption ==> ParseFrom(argv, i, cfg) == Help
    ensures KindOf(argv[i]) == BiosOption ==>
              ParseFrom(argv, i, cfg) == ParseFrom(argv, i + 2, cfg.(bios := ArgAt(argv, i + 1)))
    ensures KindOf(argv[i]) == OverlayOption ==>
              ParseFrom(argv, i, cfg) == ParseFrom(argv, i + 2, cfg.(overlay := ArgAt(argv, i + 1)))
    ensures KindOf(argv[i]) == FullscreenOption ==>
              ParseFrom(argv, i, cfg) == ParseFrom(argv, i + 1, cfg.(fullscreen := true))
    ensures KindOf(argv[i]) == DebugOption ==> ParseFrom(argv, i, cfg) == ParseFrom(argv, i + 1, cfg.(debug := true))
    ensures KindOf(argv[i]) == MuteOption ==> ParseFrom(argv, i, cfg) == ParseFrom(argv, i + 1, cfg.(mute := true))
    ensures !IsOption(argv[i]) && i < |argv| - 1 ==> ParseFrom(argv, i, cfg) == UnknownFlag(argv[i])
    ensures !IsOption(argv[i]) && i == |argv| - 1 ==> ParseFrom(argv, i, cfg) == Run(cfg.(cart := Some(argv[i])))
  {
  }

  /**
   * One optional part of the command line: parsing it followed by rest is
   * parsing rest with the option applied; an absent part changes nothing.
   */
  lemma Step(present: bool, seg: seq<string>, rest: seq<string>, before: Config, after: Config)
    requires !present ==> after == before
    requires present ==>
             || (|seg| == 2 && seg[0] == "--bios" && after == before.(bios := Some(seg[1])))
             || (|seg| == 2 && seg[0] == "--overlay" && after == before.(overlay := Some(seg[1])))
             || (seg == ["--fullscreen"] && after == before.(fullscreen := true))
             || (seg == ["--debug"] && after == before.(debug := true))
             || (seg == ["--mute"] && after == before.(mute := true))
    ensures ParseFrom((if present then seg else []) + rest, 0, before) == ParseFrom(rest, 0, after)
  {
    if !present {
      assert [] + rest == rest;
    } else if |seg| == 2 {
      StepWithArgument(seg, rest, before, after);
    } else {
      StepFlag(seg, rest, before, after);
    }
  }

  /** An option followed by its argument, then the rest of the command line. */
  lemma StepWithArgument(seg: seq<string>, rest: seq<string>, before: Config, after: Config)
    requires |seg| == 2
    requires || (seg[0] == "--bios" && after == before.(bios := Some(seg[1])))
             || (seg[0] == "--overlay" && after == before.(overlay := Some(seg[1])))
    ensures ParseFrom(seg + rest, 0, before) == ParseFrom(rest, 0, after)
  {
    var argv := seg + rest;
    assert argv[0] == seg[0];
    assert ArgAt(argv, 1) == Some(seg[1]);
    ParseShift(seg, rest, 0, after);
    ArgumentSemantics(argv, 0, before);
  }

  /** A flag, then the rest of the command line. */
  lemma StepFlag(seg: seq<string>, rest: seq<string>, before: Config, after: Config)
    requires || (seg == ["--fullscreen"] && after == before.(fullscreen := true))
             || (seg == ["--debug"] && after == before.(debug := true))
             || (seg == ["--mute"] && after == before.(mute := true))
    ensures ParseFrom(seg + rest, 0, before) == ParseFrom(rest, 0, after)
  {
    var argv := seg + rest;
    assert argv[0] == seg[0];
    ParseShift(seg, rest, 0, after);
    ArgumentSemantics(argv, 0, before);
  }

  /** A last argument that is not an option is the cart, whatever it looks like. */
  lemma {:induction false} CartIsLast(argv: seq<string>, cfg: Config)
    requires |argv| == 1 && !IsOption(argv[0])
    ensures ParseFrom(argv, 0, cfg) == Run(cfg.(cart := Some(argv[0])))
  {
  }

  /**
   * The option-argument edge cases: a trailing --bios leaves a NULL path, and
   * an option's argument is never read as an option, not even -h.
   */
  lemma OptionArgumentEdges(prog: string)
    ensures Parse([prog, "--bios"]) == Run(DEFAULT_CONFIG.(bios := None))
    ensures Parse([prog, "-o", "--help"]) == Run(DEFAULT_CONFIG.(overlay := Some("--help")))
    ensures Parse([prog, "-b", "-h"]) == Run(DEFAULT_CONFIG.(bios := Some("-h")))
    ensures Parse([prog, "game.bin", "-f"]) == UnknownFlag("game.bin")
    ensures Parse([prog, "-f", "-h", "x"]) == Help
  {
    var a1 := [prog, "--bios"];
    assert a1[1] == "--bios" && ArgAt(a1, 2) == None;
    assert ParseFrom(a1, 3, DEFAULT_CONFIG.(bios := None)) == Run(DEFAULT_CONFIG.(bios := None));
    var a2 := [prog, "-o", "--help"];
    assert a2[1] == "-o" && ArgAt(a2, 2) == Some("--help");
    var c2 := DEFAULT_CONFIG.(overlay := Some("--help"));
    assert ParseFrom(a2, 3, c2) == Run(c2);
    var a5 := [prog, "-b", "-h"];
    assert a5[1] == "-b" && ArgAt(a5, 2) == Some("-h");
    var c5 := DEFAULT_CONFIG.(bios := Some("-h"));
    assert ParseFrom(a5, 3, c5) == Run(c5);
    var a3 := [prog, "game.bin", "-f"];
    assert a3[1] == "game.bin" && !IsOption("game.bin");
    var a4 := [prog, "-f", "-h", "x"];
    assert a4[1] == "-f" && a4[2] == "-h";
    assert ParseFrom(a4, 2, DEFAULT_CONFIG.(fullscreen := true)) == Help;
  }
}
