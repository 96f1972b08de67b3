/** The plugin's command line. */
module Args {
  import opened Wrappers

  datatype Flag = Device | Control | Events

  datatype Args = Args(device: string, control: string, events: string)

  datatype ArgsError = UnknownArgument(flag: string) | NeedsValue(flag: string) | Missing

  function Name(flag: Flag): string {
    match flag
    case Device => "--device"
    case Control => "--control"
    case Events => "--events"
  }

  function FlagOf(name: string): (flag: Option<Flag>)
    ensures flag.Some? ==> Name(flag.value) == name
  {
    if name == "--device" then Some(Device)
    else if name == "--control" then Some(Control)
    else if name == "--events" then Some(Events)
    else None
  }

  /** Splits at the first `=`, if there is one. */
  function SplitOnce(arg: string): (r: Option<(string, string)>)
    ensures r.Some? ==> arg == r.value.0 + "=" + r.value.1 && '=' !in r.value.0
    ensures r.None? ==> '=' !in arg
  {
    if arg == "" then None
    else if arg[0] == '=' then Some(("", arg[1..]))
    else match SplitOnce(arg[1..])
      case None => None
      case Some((before, after)) => Some(([arg[0]] + before, after))
  }

  /** The three slots; a later setting overwrites an earlier one. */
  datatype Slots = Slots(device: Option<string>, control: Option<string>, events: Option<string>)

  const EMPTY := Slots(None, None, None)

  function Put(slots: Slots, flag: Flag, value: string): Slots {
    match flag
    case Device => slots.(device := Some(value))
    case Control => slots.(control := Some(value))
    case Events => slots.(events := Some(value))
  }

  function Fill(slots: Slots): Result<Args, ArgsError> {
    if slots.device.Some? && slots.control.Some? && slots.events.Some? then
      Ok(Args(slots.device.value, slots.control.value, slots.events.value))
    else Err(Missing)
  }

  /** What is left to do with the slots filled so far. */
  function ParseFrom(slots: Slots, argv: seq<string>): Result<Args, ArgsError>
    decreases |argv|
  {
    if argv == [] then Fill(slots) else
      var split := SplitOnce(argv[0]);
      var name := if split.Some? then split.value.0 else argv[0];
      var flag := FlagOf(name);
      if flag.None? then Err(UnknownArgument(name))
      else if split.Some? then ParseFrom(Put(slots, flag.value, split.value.1), argv[1..])
      else if |argv| == 1 then Err(NeedsValue(name))
      else ParseFrom(Put(slots, flag.value, argv[1]), argv[2..])
  }

  function Parse(argv: seq<string>): Result<Args, ArgsError> {
    ParseFrom(EMPTY, argv)
  }

  method ParseArgs(argv: seq<string>) returns (r: Result<Args, ArgsError>)
    ensures r == Parse(argv)
  {
    var device: Option<string>, control: Option<string>, events: Option<string> := None, None, None;
    var rest := argv;
    while rest != []
      invariant ParseFrom(Slots(device, control, events), rest) == Parse(argv)
      decreases |rest|
    {
      var arg := rest[0];
      rest := rest[1..];
      var name, inline := arg, None;
      var split := SplitOnce(arg);
      if split.Some? {
        name, inline := split.value.0, Some(split.value.1);
      }
      var flag := FlagOf(name);
      if flag.None? {
        return Err(UnknownArgument(name));
      }
      var value;
      if inline.Some? {
        value := inline.value;
      } else if rest != [] {
        value := rest[0];
        rest := rest[1..];
      } else {
        return Err(NeedsValue(name));
      }
      match flag.value {
        case Device => device := Some(value);
        case Control => control := Some(value);
        case Events => events := Some(value);
      }
    }
    if device.Some? && control.Some? && events.Some? {
      return Ok(Args(device.value, control.value, events.value));
    }
    return Err(Missing);
  }

  // ---------- The command lines it accepts ----------

  /** One flag as a user writes it, in either notation. */
  datatype Setting = Setting(flag: Flag, value: string, inline: bool)

  function Print(settings: seq<Setting>): seq<string> {
    if settings == [] then [] else
      var s := settings[0];
      (if s.inline then [Name(s.flag) + "=" + s.value] else [Name(s.flag), s.value]) + Print(settings[1..])
  }

  function PutAll(slots: Slots, settings: seq<Setting>): Slots
    decreases |settings|
  {
    if settings == [] then slots else PutAll(Put(slots, settings[0].flag, settings[0].value), settings[1..])
  }

  lemma {:induction false} SplitFirst(name: string, value: string)
    requires '=' !in name
    ensures SplitOnce(name + "=" + value) == Some((name, value))
  {
    var arg := name + "=" + value;
    if name == "" {
      assert arg == ['='] + value;
    } else {
      assert arg[1..] == name[1..] + "=" + value;
      SplitFirst(name[1..], value);
      assert [name[0]] + name[1..] == name;
    }
  }

  lemma {:induction false} NoSplit(name: string)
    requires '=' !in name
    ensures SplitOnce(name).None?
  {
    if name != "" {
      NoSplit(name[1..]);
    }
  }

  lemma FlagOfName(flag: Flag)
    ensures FlagOf(Name(flag)) == Some(flag) && '=' !in Name(flag)
  {
  }

  lemma {:induction false} ParseFromPrint(slots: Slots, settings: seq<Setting>)
    ensures ParseFrom(slots, Print(settings)) == Fill(PutAll(slots, settings))
    decreases |settings|
  {
    if settings != [] {
      var s, argv := settings[0], Print(settings);
      FlagOfName(s.flag);
      ParseFromPrint(Put(slots, s.flag, s.value), settings[1..]);
      if s.inline {
        SplitFirst(Name(s.flag), s.value);
        assert argv[1..] == Print(settings[1..]);
      } else {
        NoSplit(Name(s.flag));
        assert argv[2..] == Print(settings[1..]);
      }
    }
  }

  /** The last value given for a flag, if any. */
  function LastOf(settings: seq<Setting>, flag: Flag): Option<string> {
    if settings == [] then None
    else if settings[|settings| - 1].flag == flag then Some(settings[|settings| - 1].value)
    else LastOf(settings[..|settings| - 1], flag)
  }

  lemma {:induction false} PutAllSnoc(slots: Slots, settings: seq<Setting>, last: Setting)
    ensures PutAll(slots, settings + [last]) == Put(PutAll(slots, settings), last.flag, last.value)
    decreases |settings|
  {
    if settings == [] {
      assert settings + [last] == [last];
      assert PutAll(Put(slots, last.flag, last.value), [last][1..]) == Put(slots, last.flag, last.value);
    } else {
      assert (settings + [last])[1..] == settings[1..] + [last];
      PutAllSnoc(Put(slots, settings[0].flag, settings[0].value), settings[1..], last);
    }
  }

  lemma {:induction false} SlotsAreLast(settings: seq<Setting>)
    ensures PutAll(EMPTY, settings) ==
            Slots(LastOf(settings, Device), LastOf(settings, Control), LastOf(settings, Events))
    decreases |settings|
  {
    if settings != [] {
      var earlier, last := settings[..|settings| - 1], settings[|settings| - 1];
      SlotsAreLast(earlier);
      assert settings == earlier + [last];
      PutAllSnoc(EMPTY, earlier, last);
    }
  }

  /**
   * Any list of the three flags, in any order, notation and repetition, parses to the last value of
   * each, and is refused exactly when one of the three is missing.
   */
  lemma ParsePrint(settings: seq<Setting>)
    ensures var device, control, events :=
              LastOf(settings, Device), LastOf(settings, Control), LastOf(settings, Events);
            Parse(Print(settings)) ==
            if device.Some? && control.Some? && events.Some? then
              Ok(Args(device.value, control.value, events.value))
            else Err(Missing)
  {
    ParseFromPrint(EMPTY, settings);
    SlotsAreLast(settings);
  }

  lemma PrintCons(s: Setting, settings: seq<Setting>)
    ensures Print([s] + settings) ==
            (if s.inline then [Name(s.flag) + "=" + s.value] else [Name(s.flag), s.value]) + Print(settings)
  {
    assert ([s] + settings)[1..] == settings;
  }

  lemma {:induction false} AcceptedFrom(slots: Slots, argv: seq<string>) returns (settings: seq<Setting>)
    requires ParseFrom(slots, argv).Ok? || ParseFrom(slots, argv) == Err(Missing)
    ensures Print(settings) == argv
    decreases |argv|
  {
    if argv == [] {
      settings := [];
    } else {
      var split := SplitOnce(argv[0]);
      var flag := FlagOf(if split.Some? then split.value.0 else argv[0]).value;
      var value := if split.Some? then split.value.1 else argv[1];
      var rest := if split.Some? then argv[1..] else argv[2..];
      var later := AcceptedFrom(Put(slots, flag, value), rest);
      settings := [Setting(flag, value, split.Some?)] + later;
      PrintCons(Setting(flag, value, split.Some?), later);
      if split.Some? {
        assert argv == [argv[0]] + rest;
      } else {
        assert argv == [argv[0], argv[1]] + rest;
      }
    }
  }

  /** Nothing else is accepted: a command line that parses is such a list with all three flags in it. */
  lemma ParseAccepts(argv: seq<string>)
    ensures Parse(argv).Ok? <==>
            exists settings: seq<Setting> ::
              && Print(settings) == argv
              && LastOf(settings, Device).Some? && LastOf(settings, Control).Some? && LastOf(settings, Events).Some?
  {
    if Parse(argv).Ok? {
      var settings := AcceptedFrom(EMPTY, argv);
      ParsePrint(settings);
      assert Print(settings) == argv;
    }
    forall settings: seq<Setting> | Print(settings) == argv
      ensures Parse(argv).Ok? <==> LastOf(settings, Device).Some? && LastOf(settings, Control).Some?
                                   && LastOf(settings, Events).Some?
    {
      ParsePrint(settings);
    }
  }

  // ---------- The command lines it refuses ----------

  /** The part of an argument that has to name a flag. */
  function NamePart(arg: string): string {
    var split := SplitOnce(arg);
    if split.Some? then split.value.0 else arg
  }

  lemma ParseOne(slots: Slots, s: Setting, later: seq<string>)
    ensures ParseFrom(slots, Print([s]) + later) == ParseFrom(Put(slots, s.flag, s.value), later)
  {
    FlagOfName(s.flag);
    assert [s][1..] == [];
    if s.inline {
      SplitFirst(Name(s.flag), s.value);
      assert Print([s]) == [Name(s.flag) + "=" + s.value];
      TailOf([Name(s.flag) + "=" + s.value], later);
    } else {
      NoSplit(Name(s.flag));
      assert Print([s]) == [Name(s.flag), s.value];
      TailOf([Name(s.flag), s.value], later);
    }
  }

  lemma TailOf(a: seq<string>, b: seq<string>)
    ensures (a + b)[|a|..] == b && |a + b| == |a| + |b|
  {
  }

  lemma {:induction false} ParseStops(slots: Slots, settings: seq<Setting>, rest: seq<string>)
    ensures ParseFrom(slots, Print(settings) + rest) == ParseFrom(PutAll(slots, settings), rest)
    decreases |settings|
  {
    if settings == [] {
      assert [] + rest == rest;
    } else {
      var s := settings[0];
      assert settings == [s] + settings[1..];
      PrintCons(s, settings[1..]);
      PrintCons(s, []);
      assert [s] + [] == [s] && Print([s]) + [] == Print([s]);
      Regrouped(Print(settings), Print([s]), Print(settings[1..]), rest);
      ParseOne(slots, s, Print(settings[1..]) + rest);
      ParseStops(Put(slots, s.flag, s.value), settings[1..], rest);
    }
  }

  /** After some settings comes an argument that names no flag. */
  ghost predicate Unknown(argv: seq<string>, name: string) {
    exists settings, arg, rest :: && Print(settings) + ([arg] + rest) == argv
                                  && NamePart(arg) == name && name !in {"--device", "--control", "--events"}
  }

  /** After some settings the last argument names a flag and has no value. */
  ghost predicate Valueless(argv: seq<string>, name: string) {
    name in {"--device", "--control", "--events"} && exists settings :: Print(settings) + [name] == argv
  }

  ghost predicate LacksFlag(argv: seq<string>) {
    exists settings :: Print(settings) == argv
                       && exists flag: Flag :: LastOf(settings, flag).None?
  }

  lemma FlagOfIff(name: string)
    ensures FlagOf(name).Some? <==> name in {"--device", "--control", "--events"}
  {
  }

  lemma {:induction false} RefusedFrom(slots: Slots, argv: seq<string>)
    returns (settings: seq<Setting>, rest: seq<string>)
    requires ParseFrom(slots, argv).Err? && ParseFrom(slots, argv) != Err(Missing)
    ensures Print(settings) + rest == argv && rest != []
    ensures match ParseFrom(slots, argv).error
            case UnknownArgument(name) => NamePart(rest[0]) == name && FlagOf(name).None?
            case NeedsValue(name) => rest == [name] && FlagOf(name).Some?
            case Missing => false
    decreases |argv|
  {
    var split := SplitOnce(argv[0]);
    var flag := FlagOf(NamePart(argv[0]));
    if flag.None? || (split.None? && |argv| == 1) {
      settings, rest := [], argv;
      assert Print([]) + argv == argv;
    } else {
      var value := if split.Some? then split.value.1 else argv[1];
      var tail := if split.Some? then argv[1..] else argv[2..];
      var later;
      later, rest := RefusedFrom(Put(slots, flag.value, value), tail);
      settings := [Setting(flag.value, value, split.Some?)] + later;
      PrintFront(argv, flag.value, value, split.Some?, later, rest);
    }
  }

  /** The setting at the front of a command line, put in front of those found behind it. */
  lemma PrintFront(argv: seq<string>, flag: Flag, value: string, inline: bool, later: seq<Setting>, rest: seq<string>)
    requires if inline then argv != [] && argv[0] == Name(flag) + "=" + value && argv[1..] == Print(later) + rest
             else |argv| > 1 && argv[0] == Name(flag) && argv[1] == value && argv[2..] == Print(later) + rest
    ensures Print([Setting(flag, value, inline)] + later) + rest == argv
  {
    var front := if inline then [argv[0]] else [argv[0], argv[1]];
    PrintCons(Setting(flag, value, inline), later);
    Regrouped(front + Print(later), front, Print(later), rest);
    assert argv == front + (Print(later) + rest);
  }

  lemma Regrouped(whole: seq<string>, a: seq<string>, b: seq<string>, c: seq<string>)
    requires whole == a + b
    ensures whole + c == a + (b + c)
  {
  }

  lemma UnknownRefused(settings: seq<Setting>, arg: string, rest: seq<string>)
    requires NamePart(arg) !in {"--device", "--control", "--events"}
    ensures Parse(Print(settings) + ([arg] + rest)) == Err(UnknownArgument(NamePart(arg)))
  {
    ParseStops(EMPTY, settings, [arg] + rest);
    FlagOfIff(NamePart(arg));
  }

  lemma ValuelessRefused(settings: seq<Setting>, name: string)
    requires name in {"--device", "--control", "--events"}
    ensures Parse(Print(settings) + [name]) == Err(NeedsValue(name))
  {
    ParseStops(EMPTY, settings, [name]);
    FlagOfIff(name);
    FlagOfName(FlagOf(name).value);
    NoSplit(name);
  }

  /** Which error a refused command line gets, exactly. */
  lemma ParseRefuses(argv: seq<string>)
    ensures forall name :: Parse(argv) == Err(UnknownArgument(name)) <==> Unknown(argv, name)
    ensures forall name :: Parse(argv) == Err(NeedsValue(name)) <==> Valueless(argv, name)
    ensures Parse(argv) == Err(Missing) <==> LacksFlag(argv)
  {
    if Parse(argv) == Err(Missing) {
      var settings := AcceptedFrom(EMPTY, argv);
      ParsePrint(settings);
      assert Print(settings) == argv;
      assert LastOf(settings, Device).None? || LastOf(settings, Control).None? || LastOf(settings, Events).None?;
    } else if Parse(argv).Err? {
      var settings, rest := RefusedFrom(EMPTY, argv);
      assert rest == [rest[0]] + rest[1..];
      FlagOfIff(NamePart(rest[0]));
      if Parse(argv).error.UnknownArgument? {
        assert Print(settings) + ([rest[0]] + rest[1..]) == argv;
      } else {
        FlagOfIff(rest[0]);
        assert Print(settings) + [rest[0]] == argv;
      }
    }
    forall settings, arg, rest | Print(settings) + ([arg] + rest) == argv
                                 && NamePart(arg) !in {"--device", "--control", "--events"}
      ensures Parse(argv) == Err(UnknownArgument(NamePart(arg)))
    {
      UnknownRefused(settings, arg, rest);
    }
    forall settings, name | Print(settings) + [name] == argv && name in {"--device", "--control", "--events"}
      ensures Parse(argv) == Err(NeedsValue(name))
    {
      ValuelessRefused(settings, name);
    }
    forall settings, flag: Flag | Print(settings) == argv && LastOf(settings, flag).None?
      ensures Parse(argv) == Err(Missing)
    {
      ParsePrint(settings);
    }
  }
}
