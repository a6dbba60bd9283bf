/**
 * The wire vocabulary of the client library (src/lib.rs): how every
 * parameter type is rendered into the comma-separated `params` of a
 * request, the enumerations with their wire literals and their
 * case-insensitive `FromStr`, flow tuples and flow expressions in both
 * directions, and the full set of bulb commands with the method name and
 * parameter text each one sends.
 */
module Wire {
  import opened Wrappers
  import opened Text

  /** `ParseError(String)`: the error of every `FromStr` in the library. */
  datatype ParseError = ParseError(message: string)

  /** `From<ParseIntError> for ParseError`: the error carries the integer error's text. */
  function IntError(e: IntErrorKind): ParseError
  {
    ParseError(e.Message())
  }

  // ---------------------------------------------------------------------
  // `Stringify`

  /** `str::stringify`: the text between double quotes, with nothing escaped. */
  function Quote(s: string): string
  {
    "\"" + s + "\""
  }

  /** The text inside a pair of enclosing double quotes, if there is such a pair. */
  function Unquote(r: string): Option<string>
  {
    if |r| >= 2 && r[0] == '"' && r[|r| - 1] == '"' then Some(r[1..|r| - 1]) else None
  }

  /** Quoting is undone by unquoting, whatever the text holds. */
  lemma QuoteRoundTrip(s: string)
    ensures Unquote(Quote(s)) == Some(s)
  {
    assert Quote(s)[1..|Quote(s)| - 1] == s;
  }

  /**
   * What `enum_str!` writes for a variant: `stringify!` of a string literal
   * keeps its double quotes, and of a number is the bare number.
   */
  datatype Literal = Quoted(text: string) | Code(n: nat)

  /** `Display` (and so `stringify`) of an enumeration value with this literal. */
  function LiteralText(l: Literal): string
  {
    match l
    case Quoted(t) => Quote(t)
    case Code(n) => NatText(n)
  }

  /** A bare number never starts with a double quote. */
  lemma NatTextUnquoted(n: nat)
    ensures |NatText(n)| >= 1 && NatText(n)[0] != '"'
  {
    DigitsStartWithDigit(n, 10);
    DigitsAlphabet(n, 10);
    assert DigitValue(NatText(n)[0], 10).Some?;
  }

  /** Distinct literals are written as distinct texts. */
  lemma LiteralTextInjective(a: Literal, b: Literal)
    requires LiteralText(a) == LiteralText(b)
    ensures a == b
  {
    match a
    case Quoted(t) =>
      QuoteRoundTrip(t);
      if b.Code? {
        NatTextUnquoted(b.n);
      } else {
        QuoteRoundTrip(b.text);
      }
    case Code(n) =>
      if b.Quoted? {
        NatTextUnquoted(n);
      } else {
        assert IntText(n) == IntText(b.n);
        IntTextInjective(n, b.n);
      }
  }

  // ---------------------------------------------------------------------
  // `FromStr` of the enumerations

  /** The index of the first name equal to `s` ignoring ASCII case. */
  function FirstMatch(names: seq<string>, s: string): (r: Option<nat>)
    ensures r.Some? ==> r.value < |names| && EqIgnoreAsciiCase(s, names[r.value])
    ensures r.Some? ==> forall j :: 0 <= j < r.value ==> !EqIgnoreAsciiCase(s, names[j])
    ensures r.None? ==> forall j :: 0 <= j < |names| ==> !EqIgnoreAsciiCase(s, names[j])
  {
    if names == [] then None
    else if EqIgnoreAsciiCase(s, names[0]) then Some(0)
    else match FirstMatch(names[1..], s)
      case None => None
      case Some(i) => Some(i + 1)
  }

  /** The list of valid values in the error message: each name preceded by a space. */
  function ValidValues(names: seq<string>): string
  {
    if names == [] then "" else " " + names[0] + ValidValues(names[1..])
  }

  /**
   * `FromStr` generated by `enum_str!`: the first variant whose Rust name
   * equals `s` ignoring ASCII case, else a `ParseError` listing every name.
   */
  function EnumFromStr<T>(variants: seq<T>, names: seq<string>, s: string): (r: Result<T, ParseError>)
    requires |variants| == |names|
    ensures r.Ok? <==> exists i :: 0 <= i < |names| && EqIgnoreAsciiCase(s, names[i])
    ensures r.Ok? ==> exists i :: 0 <= i < |names| && EqIgnoreAsciiCase(s, names[i]) && r.value == variants[i]
    ensures r.Err? ==> r.error.message == "Could not parse " + s + " \n Valid values:" + ValidValues(names)
  {
    match FirstMatch(names, s)
    case Some(i) => Ok(variants[i])
    case None => Err(ParseError("Could not parse " + s + " \n Valid values:" + ValidValues(names)))
  }

  /** No two names are equal ignoring ASCII case. */
  predicate CaseDistinct(names: seq<string>)
  {
    forall i, j :: 0 <= j < i < |names| ==> !EqIgnoreAsciiCase(names[i], names[j])
  }

  /** Parsing a variant's own name, in any case, gives that variant when no two names clash. */
  lemma EnumFromStrOfName<T>(variants: seq<T>, names: seq<string>, i: nat, s: string)
    requires |variants| == |names| && i < |names| && CaseDistinct(names)
    requires EqIgnoreAsciiCase(s, names[i])
    ensures EnumFromStr(variants, names, s) == Ok(variants[i])
  {
    match FirstMatch(names, s)
    case None =>
    case Some(k) =>
      EqIgnoreAsciiCaseLower(s, names[i]);
      EqIgnoreAsciiCaseLower(s, names[k]);
      EqIgnoreAsciiCaseLower(names[i], names[k]);
      EqIgnoreAsciiCaseLower(names[k], names[i]);
  }

  /** Two texts equal ignoring case parse to the same variant (or both fail). */
  lemma {:induction false} FirstMatchIgnoresCase(names: seq<string>, s: string, t: string)
    requires EqIgnoreAsciiCase(s, t)
    ensures FirstMatch(names, s) == FirstMatch(names, t)
    decreases |names|
  {
    if names != [] {
      EqIgnoreAsciiCaseLower(s, t);
      EqIgnoreAsciiCaseLower(s, names[0]);
      EqIgnoreAsciiCaseLower(t, names[0]);
      FirstMatchIgnoresCase(names[1..], s, t);
    }
  }

  lemma EnumFromStrIgnoresCase<T>(variants: seq<T>, names: seq<string>, s: string, t: string)
    requires |variants| == |names| && EqIgnoreAsciiCase(s, t)
    ensures EnumFromStr(variants, names, s).Ok? == EnumFromStr(variants, names, t).Ok?
    ensures EnumFromStr(variants, names, s).Ok? ==> EnumFromStr(variants, names, s) == EnumFromStr(variants, names, t)
  {
    FirstMatchIgnoresCase(names, s, t);
  }

  /** Different lengths, first letters or last letters (ignoring case) tell two names apart. */
  lemma NamesDiffer(a: string, b: string)
    requires |a| > 0 && |b| > 0
    requires |a| != |b| || AsciiLower(a[0]) != AsciiLower(b[0]) || AsciiLower(a[|a| - 1]) != AsciiLower(b[|b| - 1])
    ensures !EqIgnoreAsciiCase(a, b)
  {
    EqIgnoreAsciiCaseLower(a, b);
    if |a| == |b| {
      assert AsciiLowerText(a)[0] == AsciiLower(a[0]);
      assert AsciiLowerText(b)[0] == AsciiLower(b[0]);
      assert AsciiLowerText(a)[|a| - 1] == AsciiLower(a[|a| - 1]);
      assert AsciiLowerText(b)[|a| - 1] == AsciiLower(b[|a| - 1]);
    }
  }

  // ---------------------------------------------------------------------
  // The enumerations of `enum_str!`. For each: the wire literal of every
  // variant (what `Display` writes), the variants in declaration order with
  // their Rust names (`variants()`, what `FromStr` accepts), and `FromStr`.

  /** `Property`: the state fields `get_prop` can ask for. */
  datatype Property =
      Power
    | Bright
    | CT
    | RGB
    | Hue
    | Sat
    | ColorMode
    | Flowing
    | DelayOff
    | FlowParams
    | MusicOn
    | Name
    | BgPower
    | BgFlowing
    | BgFlowParams
    | BgCT
    | BgColorMode
    | BgBright
    | BgRGB
    | BgHue
    | BgSat
    | NightLightBright
    | ActiveMode
  {
    function Wire(): (l: Literal)
      ensures l.Quoted? && ',' !in l.text
    {
      match this
      case Power => Quoted("power")
      case Bright => Quoted("bright")
      case CT => Quoted("ct")
      case RGB => Quoted("rgb")
      case Hue => Quoted("hue")
      case Sat => Quoted("sat")
      case ColorMode => Quoted("color_mode")
      case Flowing => Quoted("flowing")
      case DelayOff => Quoted("delayoff")
      case FlowParams => Quoted("flow_params")
      case MusicOn => Quoted("music_on")
      case Name => Quoted("name")
      case BgPower => Quoted("bg_power")
      case BgFlowing => Quoted("bg_flowing")
      case BgFlowParams => Quoted("bg_flow_params")
      case BgCT => Quoted("bg_ct")
      case BgColorMode => Quoted("bg_lmode")
      case BgBright => Quoted("bg_bright")
      case BgRGB => Quoted("bg_rgb")
      case BgHue => Quoted("bg_hue")
      case BgSat => Quoted("bg_sat")
      case NightLightBright => Quoted("nl_br")
      case ActiveMode => Quoted("active_mode")
    }
  }

  const PropertyVariants: seq<Property> := [Property.Power, Property.Bright, Property.CT, Property.RGB, Property.Hue, Property.Sat, Property.ColorMode, Property.Flowing, Property.DelayOff, Property.FlowParams, Property.MusicOn, Property.Name, Property.BgPower, Property.BgFlowing, Property.BgFlowParams, Property.BgCT, Property.BgColorMode, Property.BgBright, Property.BgRGB, Property.BgHue, Property.BgSat, Property.NightLightBright, Property.ActiveMode]
  const PropertyNames: seq<string> := ["Power", "Bright", "CT", "RGB", "Hue", "Sat", "ColorMode", "Flowing", "DelayOff", "FlowParams", "MusicOn", "Name", "BgPower", "BgFlowing", "BgFlowParams", "BgCT", "BgColorMode", "BgBright", "BgRGB", "BgHue", "BgSat", "NightLightBright", "ActiveMode"]

  function PropertyFromStr(s: string): Result<Property, ParseError>
  {
    EnumFromStr(PropertyVariants, PropertyNames, s)
  }

  /** `Property::from_str` accepts exactly the variant names, in any case, each naming its own variant. */
  lemma PropertyFromStrNames(i: nat, s: string)
    requires i < |PropertyNames| && EqIgnoreAsciiCase(s, PropertyNames[i])
    ensures PropertyFromStr(s) == Ok(PropertyVariants[i])
  {
    PropertyNamesDistinct();
    EnumFromStrOfName(PropertyVariants, PropertyNames, i, s);
  }

  lemma PropertyNamesDistinct()
    ensures CaseDistinct(PropertyNames)
  {
    forall k, j | 0 <= j < k < |PropertyNames| ensures !EqIgnoreAsciiCase(PropertyNames[k], PropertyNames[j]) {
      NamesDiffer(PropertyNames[k], PropertyNames[j]);
    }
  }

  /** The variant whose wire text is `t`, if any: the inverse of `Property.Wire`. */
  function PropertyOfWire(t: string): Option<Property>
  {
    if t == "power" then Some(Property.Power)
    else if t == "bright" then Some(Property.Bright)
    else if t == "ct" then Some(Property.CT)
    else if t == "rgb" then Some(Property.RGB)
    else if t == "hue" then Some(Property.Hue)
    else if t == "sat" then Some(Property.Sat)
    else if t == "color_mode" then Some(Property.ColorMode)
    else if t == "flowing" then Some(Property.Flowing)
    else if t == "delayoff" then Some(Property.DelayOff)
    else if t == "flow_params" then Some(Property.FlowParams)
    else if t == "music_on" then Some(Property.MusicOn)
    else if t == "name" then Some(Property.Name)
    else if t == "bg_power" then Some(Property.BgPower)
    else if t == "bg_flowing" then Some(Property.BgFlowing)
    else if t == "bg_flow_params" then Some(Property.BgFlowParams)
    else if t == "bg_ct" then Some(Property.BgCT)
    else if t == "bg_lmode" then Some(Property.BgColorMode)
    else if t == "bg_bright" then Some(Property.BgBright)
    else if t == "bg_rgb" then Some(Property.BgRGB)
    else if t == "bg_hue" then Some(Property.BgHue)
    else if t == "bg_sat" then Some(Property.BgSat)
    else if t == "nl_br" then Some(Property.NightLightBright)
    else if t == "active_mode" then Some(Property.ActiveMode)
    else None
  }

  lemma PropertyOfWireInverse(x: Property)
    ensures PropertyOfWire(x.Wire().text) == Some(x)
  {
  }

  /** `variants()` lists every variant once, and distinct variants have distinct wire literals. */
  lemma PropertyVariantsComplete(x: Property, y: Property)
    ensures x in PropertyVariants
    ensures x != y ==> LiteralText(x.Wire()) != LiteralText(y.Wire())
  {
    PropertyOfWireInverse(x);
    PropertyOfWireInverse(y);
    if LiteralText(x.Wire()) == LiteralText(y.Wire()) {
      LiteralTextInjective(x.Wire(), y.Wire());
    }
  }

  /** `Power`: the power state of a light. */
  datatype Power =
      On
    | Off
  {
    function Wire(): Literal
    {
      match this
      case On => Quoted("on")
      case Off => Quoted("off")
    }
  }

  const PowerVariants: seq<Power> := [Power.On, Power.Off]
  const PowerNames: seq<string> := ["On", "Off"]

  function PowerFromStr(s: string): Result<Power, ParseError>
  {
    EnumFromStr(PowerVariants, PowerNames, s)
  }

  /** `Power::from_str` accepts exactly the variant names, in any case, each naming its own variant. */
  lemma PowerFromStrNames(i: nat, s: string)
    requires i < |PowerNames| && EqIgnoreAsciiCase(s, PowerNames[i])
    ensures PowerFromStr(s) == Ok(PowerVariants[i])
  {
    PowerNamesDistinct();
    EnumFromStrOfName(PowerVariants, PowerNames, i, s);
  }

  lemma PowerNamesDistinct()
    ensures CaseDistinct(PowerNames)
  {
    forall k, j | 0 <= j < k < |PowerNames| ensures !EqIgnoreAsciiCase(PowerNames[k], PowerNames[j]) {
      NamesDiffer(PowerNames[k], PowerNames[j]);
    }
  }

  /** `variants()` lists every variant once, and distinct variants have distinct wire literals. */
  lemma PowerVariantsComplete(x: Power, y: Power)
    ensures x in PowerVariants
    ensures x != y ==> LiteralText(x.Wire()) != LiteralText(y.Wire())
  {
    if x != y && LiteralText(x.Wire()) == LiteralText(y.Wire()) {
      LiteralTextInjective(x.Wire(), y.Wire());
    }
  }

  /** `Effect`: whether a change is applied at once or gradually. */
  datatype Effect =
      Sudden
    | Smooth
  {
    function Wire(): Literal
    {
      match this
      case Sudden => Quoted("sudden")
      case Smooth => Quoted("smooth")
    }
  }

  const EffectVariants: seq<Effect> := [Effect.Sudden, Effect.Smooth]
  const EffectNames: seq<string> := ["Sudden", "Smooth"]

  function EffectFromStr(s: string): Result<Effect, ParseError>
  {
    EnumFromStr(EffectVariants, EffectNames, s)
  }

  /** `Effect::from_str` accepts exactly the variant names, in any case, each naming its own variant. */
  lemma EffectFromStrNames(i: nat, s: string)
    requires i < |EffectNames| && EqIgnoreAsciiCase(s, EffectNames[i])
    ensures EffectFromStr(s) == Ok(EffectVariants[i])
  {
    EffectNamesDistinct();
    EnumFromStrOfName(EffectVariants, EffectNames, i, s);
  }

  lemma EffectNamesDistinct()
    ensures CaseDistinct(EffectNames)
  {
    forall k, j | 0 <= j < k < |EffectNames| ensures !EqIgnoreAsciiCase(EffectNames[k], EffectNames[j]) {
      NamesDiffer(EffectNames[k], EffectNames[j]);
    }
  }

  /** `variants()` lists every variant once, and distinct variants have distinct wire literals. */
  lemma EffectVariantsComplete(x: Effect, y: Effect)
    ensures x in EffectVariants
    ensures x != y ==> LiteralText(x.Wire()) != LiteralText(y.Wire())
  {
    if x != y && LiteralText(x.Wire()) == LiteralText(y.Wire()) {
      LiteralTextInjective(x.Wire(), y.Wire());
    }
  }

  /** `Prop`: what `set_adjust` adjusts. */
  datatype Prop =
      Bright
    | CT
    | Color
  {
    function Wire(): Literal
    {
      match this
      case Bright => Quoted("bright")
      case CT => Quoted("ct")
      case Color => Quoted("color")
    }
  }

  const PropVariants: seq<Prop> := [Prop.Bright, Prop.CT, Prop.Color]
  const PropNames: seq<string> := ["Bright", "CT", "Color"]

  function PropFromStr(s: string): Result<Prop, ParseError>
  {
    EnumFromStr(PropVariants, PropNames, s)
  }

  /** `Prop::from_str` accepts exactly the variant names, in any case, each naming its own variant. */
  lemma PropFromStrNames(i: nat, s: string)
    requires i < |PropNames| && EqIgnoreAsciiCase(s, PropNames[i])
    ensures PropFromStr(s) == Ok(PropVariants[i])
  {
    PropNamesDistinct();
    EnumFromStrOfName(PropVariants, PropNames, i, s);
  }

  lemma PropNamesDistinct()
    ensures CaseDistinct(PropNames)
  {
    forall k, j | 0 <= j < k < |PropNames| ensures !EqIgnoreAsciiCase(PropNames[k], PropNames[j]) {
      NamesDiffer(PropNames[k], PropNames[j]);
    }
  }

  /** `variants()` lists every variant once, and distinct variants have distinct wire literals. */
  lemma PropVariantsComplete(x: Prop, y: Prop)
    ensures x in PropVariants
    ensures x != y ==> LiteralText(x.Wire()) != LiteralText(y.Wire())
  {
    if x != y && LiteralText(x.Wire()) == LiteralText(y.Wire()) {
      LiteralTextInjective(x.Wire(), y.Wire());
    }
  }

  /** `Class`: the kind of scene `set_scene` sets. */
  datatype Class =
      Color
    | HSV
    | CT
    | CF
    | AutoDelayOff
  {
    function Wire(): Literal
    {
      match this
      case Color => Quoted("color")
      case HSV => Quoted("hsv")
      case CT => Quoted("ct")
      case CF => Quoted("cf")
      case AutoDelayOff => Quoted("auto_delay_off")
    }
  }

  const ClassVariants: seq<Class> := [Class.Color, Class.HSV, Class.CT, Class.CF, Class.AutoDelayOff]
  const ClassNames: seq<string> := ["Color", "HSV", "CT", "CF", "AutoDelayOff"]

  function ClassFromStr(s: string): Result<Class, ParseError>
  {
    EnumFromStr(ClassVariants, ClassNames, s)
  }

  /** `Class::from_str` accepts exactly the variant names, in any case, each naming its own variant. */
  lemma ClassFromStrNames(i: nat, s: string)
    requires i < |ClassNames| && EqIgnoreAsciiCase(s, ClassNames[i])
    ensures ClassFromStr(s) == Ok(ClassVariants[i])
  {
    ClassNamesDistinct();
    EnumFromStrOfName(ClassVariants, ClassNames, i, s);
  }

  lemma ClassNamesDistinct()
    ensures CaseDistinct(ClassNames)
  {
    forall k, j | 0 <= j < k < |ClassNames| ensures !EqIgnoreAsciiCase(ClassNames[k], ClassNames[j]) {
      NamesDiffer(ClassNames[k], ClassNames[j]);
    }
  }

  /** `variants()` lists every variant once, and distinct variants have distinct wire literals. */
  lemma ClassVariantsComplete(x: Class, y: Class)
    ensures x in ClassVariants
    ensures x != y ==> LiteralText(x.Wire()) != LiteralText(y.Wire())
  {
    if x != y && LiteralText(x.Wire()) == LiteralText(y.Wire()) {
      LiteralTextInjective(x.Wire(), y.Wire());
    }
  }

  /** `Mode`: the mode a light is switched on in. */
  datatype Mode =
      Normal
    | CT
    | RGB
    | HSV
    | CF
    | NightLight
  {
    function Wire(): Literal
    {
      match this
      case Normal => Code(0)
      case CT => Code(1)
      case RGB => Code(2)
      case HSV => Code(3)
      case CF => Code(4)
      case NightLight => Code(5)
    }
  }

  const ModeVariants: seq<Mode> := [Mode.Normal, Mode.CT, Mode.RGB, Mode.HSV, Mode.CF, Mode.NightLight]
  const ModeNames: seq<string> := ["Normal", "CT", "RGB", "HSV", "CF", "NightLight"]

  function ModeFromStr(s: string): Result<Mode, ParseError>
  {
    EnumFromStr(ModeVariants, ModeNames, s)
  }

  /** `Mode::from_str` accepts exactly the variant names, in any case, each naming its own variant. */
  lemma ModeFromStrNames(i: nat, s: string)
    requires i < |ModeNames| && EqIgnoreAsciiCase(s, ModeNames[i])
    ensures ModeFromStr(s) == Ok(ModeVariants[i])
  {
    ModeNamesDistinct();
    EnumFromStrOfName(ModeVariants, ModeNames, i, s);
  }

  lemma ModeNamesDistinct()
    ensures CaseDistinct(ModeNames)
  {
    forall k, j | 0 <= j < k < |ModeNames| ensures !EqIgnoreAsciiCase(ModeNames[k], ModeNames[j]) {
      NamesDiffer(ModeNames[k], ModeNames[j]);
    }
  }

  /** `variants()` lists every variant once, and distinct variants have distinct wire literals. */
  lemma ModeVariantsComplete(x: Mode, y: Mode)
    ensures x in ModeVariants
    ensures x != y ==> LiteralText(x.Wire()) != LiteralText(y.Wire())
  {
    if x != y && LiteralText(x.Wire()) == LiteralText(y.Wire()) {
      LiteralTextInjective(x.Wire(), y.Wire());
    }
  }

  /** `CronType`: the kind of timer job. */
  datatype CronType =
      Off
  {
    function Wire(): Literal
    {
      match this
      case Off => Code(0)
    }
  }

  const CronTypeVariants: seq<CronType> := [CronType.Off]
  const CronTypeNames: seq<string> := ["Off"]

  function CronTypeFromStr(s: string): Result<CronType, ParseError>
  {
    EnumFromStr(CronTypeVariants, CronTypeNames, s)
  }

  /** `CronType::from_str` accepts exactly the variant names, in any case, each naming its own variant. */
  lemma CronTypeFromStrNames(i: nat, s: string)
    requires i < |CronTypeNames| && EqIgnoreAsciiCase(s, CronTypeNames[i])
    ensures CronTypeFromStr(s) == Ok(CronTypeVariants[i])
  {
    EnumFromStrOfName(CronTypeVariants, CronTypeNames, i, s);
  }

  /** `variants()` lists every variant once, and distinct variants have distinct wire literals. */
  lemma CronTypeVariantsComplete(x: CronType, y: CronType)
    ensures x in CronTypeVariants
    ensures x != y ==> LiteralText(x.Wire()) != LiteralText(y.Wire())
  {
    if x != y && LiteralText(x.Wire()) == LiteralText(y.Wire()) {
      LiteralTextInjective(x.Wire(), y.Wire());
    }
  }

  /** `CfAction`: what a light does when a colour flow ends. */
  datatype CfAction =
      Recover
    | Stay
    | Off
  {
    function Wire(): Literal
    {
      match this
      case Recover => Code(0)
      case Stay => Code(1)
      case Off => Code(2)
    }
  }

  const CfActionVariants: seq<CfAction> := [CfAction.Recover, CfAction.Stay, CfAction.Off]
  const CfActionNames: seq<string> := ["Recover", "Stay", "Off"]

  function CfActionFromStr(s: string): Result<CfAction, ParseError>
  {
    EnumFromStr(CfActionVariants, CfActionNames, s)
  }

  /** `CfAction::from_str` accepts exactly the variant names, in any case, each naming its own variant. */
  lemma CfActionFromStrNames(i: nat, s: string)
    requires i < |CfActionNames| && EqIgnoreAsciiCase(s, CfActionNames[i])
    ensures CfActionFromStr(s) == Ok(CfActionVariants[i])
  {
    CfActionNamesDistinct();
    EnumFromStrOfName(CfActionVariants, CfActionNames, i, s);
  }

  lemma CfActionNamesDistinct()
    ensures CaseDistinct(CfActionNames)
  {
    forall k, j | 0 <= j < k < |CfActionNames| ensures !EqIgnoreAsciiCase(CfActionNames[k], CfActionNames[j]) {
      NamesDiffer(CfActionNames[k], CfActionNames[j]);
    }
  }

  /** `variants()` lists every variant once, and distinct variants have distinct wire literals. */
  lemma CfActionVariantsComplete(x: CfAction, y: CfAction)
    ensures x in CfActionVariants
    ensures x != y ==> LiteralText(x.Wire()) != LiteralText(y.Wire())
  {
    if x != y && LiteralText(x.Wire()) == LiteralText(y.Wire()) {
      LiteralTextInjective(x.Wire(), y.Wire());
    }
  }

  /** `AdjustAction`: the direction of an adjustment. */
  datatype AdjustAction =
      Increase
    | Decrease
    | Circle
  {
    function Wire(): Literal
    {
      match this
      case Increase => Quoted("increase")
      case Decrease => Quoted("decrease")
      case Circle => Quoted("circle")
    }
  }

  const AdjustActionVariants: seq<AdjustAction> := [AdjustAction.Increase, AdjustAction.Decrease, AdjustAction.Circle]
  const AdjustActionNames: seq<string> := ["Increase", "Decrease", "Circle"]

  function AdjustActionFromStr(s: string): Result<AdjustAction, ParseError>
  {
    EnumFromStr(AdjustActionVariants, AdjustActionNames, s)
  }

  /** `AdjustAction::from_str` accepts exactly the variant names, in any case, each naming its own variant. */
  lemma AdjustActionFromStrNames(i: nat, s: string)
    requires i < |AdjustActionNames| && EqIgnoreAsciiCase(s, AdjustActionNames[i])
    ensures AdjustActionFromStr(s) == Ok(AdjustActionVariants[i])
  {
    AdjustActionNamesDistinct();
    EnumFromStrOfName(AdjustActionVariants, AdjustActionNames, i, s);
  }

  lemma AdjustActionNamesDistinct()
    ensures CaseDistinct(AdjustActionNames)
  {
    forall k, j | 0 <= j < k < |AdjustActionNames| ensures !EqIgnoreAsciiCase(AdjustActionNames[k], AdjustActionNames[j]) {
      NamesDiffer(AdjustActionNames[k], AdjustActionNames[j]);
    }
  }

  /** `variants()` lists every variant once, and distinct variants have distinct wire literals. */
  lemma AdjustActionVariantsComplete(x: AdjustAction, y: AdjustAction)
    ensures x in AdjustActionVariants
    ensures x != y ==> LiteralText(x.Wire()) != LiteralText(y.Wire())
  {
    if x != y && LiteralText(x.Wire()) == LiteralText(y.Wire()) {
      LiteralTextInjective(x.Wire(), y.Wire());
    }
  }

  /** `MusicAction`: start or stop music mode. */
  datatype MusicAction =
      Off
    | On
  {
    function Wire(): Literal
    {
      match this
      case Off => Code(0)
      case On => Code(1)
    }
  }

  const MusicActionVariants: seq<MusicAction> := [MusicAction.Off, MusicAction.On]
  const MusicActionNames: seq<string> := ["Off", "On"]

  function MusicActionFromStr(s: string): Result<MusicAction, ParseError>
  {
    EnumFromStr(MusicActionVariants, MusicActionNames, s)
  }

  /** `MusicAction::from_str` accepts exactly the variant names, in any case, each naming its own variant. */
  lemma MusicActionFromStrNames(i: nat, s: string)
    requires i < |MusicActionNames| && EqIgnoreAsciiCase(s, MusicActionNames[i])
    ensures MusicActionFromStr(s) == Ok(MusicActionVariants[i])
  {
    MusicActionNamesDistinct();
    EnumFromStrOfName(MusicActionVariants, MusicActionNames, i, s);
  }

  lemma MusicActionNamesDistinct()
    ensures CaseDistinct(MusicActionNames)
  {
    forall k, j | 0 <= j < k < |MusicActionNames| ensures !EqIgnoreAsciiCase(MusicActionNames[k], MusicActionNames[j]) {
      NamesDiffer(MusicActionNames[k], MusicActionNames[j]);
    }
  }

  /** `variants()` lists every variant once, and distinct variants have distinct wire literals. */
  lemma MusicActionVariantsComplete(x: MusicAction, y: MusicAction)
    ensures x in MusicActionVariants
    ensures x != y ==> LiteralText(x.Wire()) != LiteralText(y.Wire())
  {
    if x != y && LiteralText(x.Wire()) == LiteralText(y.Wire()) {
      LiteralTextInjective(x.Wire(), y.Wire());
    }
  }

  /** `FlowMode`: the kind of state change in a flow tuple. */
  datatype FlowMode =
      Color
    | CT
    | Sleep
  {
    function Wire(): Literal
    {
      match this
      case Color => Code(1)
      case CT => Code(2)
      case Sleep => Code(7)
    }
  }

  const FlowModeVariants: seq<FlowMode> := [FlowMode.Color, FlowMode.CT, FlowMode.Sleep]
  const FlowModeNames: seq<string> := ["Color", "CT", "Sleep"]

  function FlowModeFromStr(s: string): Result<FlowMode, ParseError>
  {
    EnumFromStr(FlowModeVariants, FlowModeNames, s)
  }

  /** `FlowMode::from_str` accepts exactly the variant names, in any case, each naming its own variant. */
  lemma FlowModeFromStrNames(i: nat, s: string)
    requires i < |FlowModeNames| && EqIgnoreAsciiCase(s, FlowModeNames[i])
    ensures FlowModeFromStr(s) == Ok(FlowModeVariants[i])
  {
    FlowModeNamesDistinct();
    EnumFromStrOfName(FlowModeVariants, FlowModeNames, i, s);
  }

  lemma FlowModeNamesDistinct()
    ensures CaseDistinct(FlowModeNames)
  {
    forall k, j | 0 <= j < k < |FlowModeNames| ensures !EqIgnoreAsciiCase(FlowModeNames[k], FlowModeNames[j]) {
      NamesDiffer(FlowModeNames[k], FlowModeNames[j]);
    }
  }

  /** `variants()` lists every variant once, and distinct variants have distinct wire literals. */
  lemma FlowModeVariantsComplete(x: FlowMode, y: FlowMode)
    ensures x in FlowModeVariants
    ensures x != y ==> LiteralText(x.Wire()) != LiteralText(y.Wire())
  {
    if x != y && LiteralText(x.Wire()) == LiteralText(y.Wire()) {
      LiteralTextInjective(x.Wire(), y.Wire());
    }
  }

  // ---------------------------------------------------------------------
  // Flow tuples and flow expressions

  /**
   * `FlowTuple`: one state change of a colour flow. The duration is kept in
   * whole milliseconds, the unit in which it is written and read.
   */
  datatype FlowTuple = FlowTuple(durationMs: nat, mode: FlowMode, value: U32, brightness: I8)

  /** `FlowTuple::rgb`: a colour change. */
  function RgbTuple(durationMs: nat, rgb: U32, brightness: I8): FlowTuple
  {
    FlowTuple(durationMs, FlowMode.Color, rgb, brightness)
  }

  /** `FlowTuple::ct`: a colour temperature change. */
  function CtTuple(durationMs: nat, ct: U32, brightness: I8): FlowTuple
  {
    FlowTuple(durationMs, FlowMode.CT, ct, brightness)
  }

  /** `FlowTuple::sleep`: a pause, with value 0 and brightness -1. */
  function SleepTuple(durationMs: nat): FlowTuple
  {
    FlowTuple(durationMs, FlowMode.Sleep, 0, -1)
  }

  /** The four fields `FlowTuple::to_string` writes: milliseconds, mode code, value, brightness. */
  function TupleFields(t: FlowTuple): seq<string>
  {
    [NatText(t.durationMs), LiteralText(t.mode.Wire()), NatText(t.value), IntText(t.brightness)]
  }

  /** `FlowTuple::to_string`. */
  function TupleText(t: FlowTuple): string
  {
    Join(TupleFields(t), ",")
  }

  /** What the three constructors write: modes 1, 2 and 7, and a sleep's fixed value and brightness. */
  lemma TupleConstructorsText(d: nat, v: U32, b: I8)
    ensures TupleText(RgbTuple(d, v, b)) == NatText(d) + ",1," + NatText(v) + "," + IntText(b)
    ensures TupleText(CtTuple(d, v, b)) == NatText(d) + ",2," + NatText(v) + "," + IntText(b)
    ensures TupleText(SleepTuple(d)) == NatText(d) + ",7,0,-1"
  {
    assert NatText(1) == "1" && NatText(2) == "2" && NatText(7) == "7" && NatText(0) == "0";
    assert IntText(-1) == "-1";
    forall t: FlowTuple ensures TupleText(t) == TupleFields(t)[0] + "," + TupleFields(t)[1] + "," + TupleFields(t)[2] + "," + TupleFields(t)[3] {
      JoinFour(TupleFields(t), ",");
    }
  }

  lemma JoinFour(parts: seq<string>, sep: string)
    requires |parts| == 4
    ensures Join(parts, sep) == parts[0] + sep + parts[1] + sep + parts[2] + sep + parts[3]
  {
    var p1, p2, p3 := parts[1..], parts[2..], parts[3..];
    assert p1[1..] == p2 && p2[1..] == p3;
    assert Join(p3, sep) == parts[3];
    assert Join(p2, sep) == parts[2] + sep + parts[3];
    assert Join(p1, sep) == parts[1] + sep + (parts[2] + sep + parts[3]);
  }

  function TupleTexts(flow: seq<FlowTuple>): seq<string>
  {
    seq(|flow|, i requires 0 <= i < |flow| => TupleText(flow[i]))
  }

  /** Every field of every tuple, in order. */
  function FlowFields(flow: seq<FlowTuple>): seq<string>
  {
    if flow == [] then [] else TupleFields(flow[0]) + FlowFields(flow[1..])
  }

  /** Each text followed by `sep`: what the loop of `FlowExpresion::stringify` has pushed so far. */
  function Terminated(parts: seq<string>, sep: string): string
  {
    if parts == [] then "" else Terminated(parts[..|parts| - 1], sep) + parts[|parts| - 1] + sep
  }

  lemma {:induction false} TerminatedJoin(parts: seq<string>, sep: string)
    requires |parts| > 0
    ensures Terminated(parts, sep) == Join(parts, sep) + sep
    decreases |parts|
  {
    var init, last := parts[..|parts| - 1], parts[|parts| - 1];
    if |init| > 0 {
      TerminatedJoin(init, sep);
      JoinAppend(init, [last], sep);
      assert init + [last] == parts;
    }
  }

  /**
   * `FlowExpresion::stringify` as written: an opening quote, each tuple
   * followed by a comma, then the last character popped and a closing
   * quote pushed. For an empty expression the pop removes the opening
   * quote, leaving a lone `"`.
   */
  method StringifyFlowAsWritten(flow: seq<FlowTuple>) returns (s: string)
    ensures |flow| == 0 ==> s == "\""
    ensures |flow| > 0 ==> s == FlowParam(flow)
  {
    s := "\"";
    var i := 0;
    while i < |flow|
      invariant 0 <= i <= |flow|
      invariant s == "\"" + Terminated(TupleTexts(flow[..i]), ",")
    {
      PushTuple(flow, i, s);
      s := s + TupleText(flow[i]);
      s := s + ",";
      i := i + 1;
    }
    assert flow[..i] == flow;
    PopTerminator(flow, s);
    s := s[..|s| - 1];
    s := s + "\"";
  }

  /** What the loop has pushed after one more tuple. */
  lemma PushTuple(flow: seq<FlowTuple>, i: nat, s: string)
    requires i < |flow| && s == "\"" + Terminated(TupleTexts(flow[..i]), ",")
    ensures s + TupleText(flow[i]) + "," == "\"" + Terminated(TupleTexts(flow[..i + 1]), ",")
  {
    TerminatedStep(flow, i);
  }

  /** One more tuple adds its text and a comma. */
  lemma TerminatedStep(flow: seq<FlowTuple>, i: nat)
    requires i < |flow|
    ensures Terminated(TupleTexts(flow[..i + 1]), ",") == Terminated(TupleTexts(flow[..i]), ",") + TupleText(flow[i]) + ","
  {
    var texts := TupleTexts(flow[..i + 1]);
    assert texts[..i] == TupleTexts(flow[..i]);
    assert texts[i] == TupleText(flow[i]);
  }

  /** Dropping the trailing comma of the terminated tuples and closing the quote gives the intended parameter, or a lone quote when there are none. */
  lemma PopTerminator(flow: seq<FlowTuple>, t: string)
    requires t == "\"" + Terminated(TupleTexts(flow), ",")
    ensures |t| > 0
    ensures |flow| == 0 ==> t[..|t| - 1] + "\"" == "\""
    ensures |flow| > 0 ==> t[..|t| - 1] + "\"" == FlowParam(flow)
  {
    if |flow| > 0 {
      var j := Join(TupleTexts(flow), ",");
      TerminatedJoin(TupleTexts(flow), ",");
      assert t == "\"" + j + ",";
      assert t[..|t| - 1] == "\"" + j;
    } else {
      assert t == "\"";
    }
  }

  /** The lone quote written for an empty expression is not a quoted text at all. */
  lemma EmptyFlowAsWrittenUnbalanced()
    ensures Unquote("\"") == None
    ensures forall t :: Quote(t) != "\""
    ensures FlowParam([]) == "\"\""
  {
  }

  /**
   * The flow expression parameter as evidently intended: the tuples joined
   * with commas between double quotes, an empty expression giving `""`.
   */
  function FlowParam(flow: seq<FlowTuple>): (r: string)
    ensures Unquote(r) == Some(Join(TupleTexts(flow), ","))
  {
    QuoteRoundTrip(Join(TupleTexts(flow), ","));
    Quote(Join(TupleTexts(flow), ","))
  }

  /**
   * How `FlowExpresion::from_str` reads a mode: a `FlowMode` name in any
   * case, else one of the codes 1, 2 and 7.
   */
  function ParseFlowMode(t: string): (r: Result<FlowMode, ParseError>)
    ensures r.Ok? <==> FlowModeFromStr(t).Ok? || t == "1" || t == "2" || t == "7"
    ensures r.Err? ==> r.error.message == "Could not parse FlowMode: " + t + "\nvalid values: 1 (Color), 2(CT), 7(Sleep)"
  {
    match FlowModeFromStr(t)
    case Ok(m) => Ok(m)
    case Err(_) =>
      if t == "1" then Ok(FlowMode.Color)
      else if t == "2" then Ok(FlowMode.CT)
      else if t == "7" then Ok(FlowMode.Sleep)
      else Err(ParseError("Could not parse FlowMode: " + t + "\nvalid values: 1 (Color), 2(CT), 7(Sleep)"))
  }

  /** The code a mode is written as reads back as that mode. */
  lemma ParseFlowModeCode(m: FlowMode)
    ensures ParseFlowMode(LiteralText(m.Wire())) == Ok(m)
  {
    var t := LiteralText(m.Wire());
    assert t == NatText(m.Wire().n);
    assert NatText(1) == "1" && NatText(2) == "2" && NatText(7) == "7";
    assert |t| == 1;
    assert FlowModeFromStr(t).Err?;
  }

  /**
   * One group of four fields, read in the order of the source: duration
   * (`u64`), value (`u32`), mode, brightness (`i8`); the first failure is
   * the result.
   */
  function ParseTuple(d: string, m: string, v: string, b: string): (r: Result<FlowTuple, ParseError>)
  {
    match ParseInt(d, 10, 0, U64_MAX)
    case Err(e) => Err(IntError(e))
    case Ok(ms) =>
      match ParseInt(v, 10, 0, U32_MAX)
      case Err(e) => Err(IntError(e))
      case Ok(value) =>
        match ParseFlowMode(m)
        case Err(e) => Err(e)
        case Ok(mode) =>
          match ParseInt(b, 10, I8_MIN, I8_MAX)
          case Err(e) => Err(IntError(e))
          case Ok(brightness) => Ok(FlowTuple(ms, mode, value, brightness))
  }

  /** The pieces taken four at a time (`tuples()`); fewer than four left over are dropped. */
  function ParseGroups(pieces: seq<string>): Result<seq<FlowTuple>, ParseError>
    decreases |pieces|
  {
    if |pieces| < 4 then Ok([])
    else match ParseTuple(pieces[0], pieces[1], pieces[2], pieces[3])
      case Err(e) => Err(e)
      case Ok(t) =>
        match ParseGroups(pieces[4..])
        case Err(e) => Err(e)
        case Ok(rest) => Ok([t] + rest)
  }

  /** `FlowExpresion::from_str`. */
  function FlowFromStr(s: string): Result<seq<FlowTuple>, ParseError>
  {
    ParseGroups(SplitOn(s, ","))
  }

  /** `r` with `done` put in front of its tuples. */
  function Prepend(done: seq<FlowTuple>, r: Result<seq<FlowTuple>, ParseError>): Result<seq<FlowTuple>, ParseError>
  {
    match r
    case Ok(rest) => Ok(done + rest)
    case Err(e) => Err(e)
  }

  lemma PrependStep(done: seq<FlowTuple>, t: FlowTuple, r: Result<seq<FlowTuple>, ParseError>)
    ensures Prepend([], r) == r
    ensures Prepend(done, Prepend([t], r)) == Prepend(done + [t], r)
  {
    if r.Ok? {
      assert [] + r.value == r.value;
      assert done + ([t] + r.value) == (done + [t]) + r.value;
    }
  }

  /** The loop of `FlowExpresion::from_str`: parse each group, push it, stop at the first error. */
  method ParseFlow(s: string) returns (r: Result<seq<FlowTuple>, ParseError>)
    ensures r == FlowFromStr(s)
  {
    var pieces := SplitOn(s, ",");
    var v: seq<FlowTuple> := [];
    var i := 0;
    assert pieces[i..] == pieces;
    PrependStep(v, SleepTuple(0), ParseGroups(pieces));
    while i + 4 <= |pieces|
      invariant 0 <= i <= |pieces|
      invariant ParseGroups(pieces) == Prepend(v, ParseGroups(pieces[i..]))
    {
      var t := ParseTuple(pieces[i], pieces[i + 1], pieces[i + 2], pieces[i + 3]);
      assert pieces[i..][4..] == pieces[i + 4..];
      assert pieces[i..][0] == pieces[i] && pieces[i..][1] == pieces[i + 1];
      assert pieces[i..][2] == pieces[i + 2] && pieces[i..][3] == pieces[i + 3];
      if t.Err? {
        assert ParseGroups(pieces[i..]) == Err(t.error);
        return Err(t.error);
      }
      assert ParseGroups(pieces[i..]) == Prepend([t.value], ParseGroups(pieces[i + 4..]));
      PrependStep(v, t.value, ParseGroups(pieces[i + 4..]));
      v := v + [t.value];
      i := i + 4;
    }
    assert ParseGroups(pieces[i..]) == Ok([]);
    assert v + [] == v;
    r := Ok(v);
  }

  /** Fewer than four pieces after whole groups are ignored. */
  lemma {:induction false} ParseGroupsDropsPartialGroup(groups: seq<string>, extra: seq<string>)
    requires |groups| % 4 == 0 && |extra| < 4
    ensures ParseGroups(groups + extra) == ParseGroups(groups)
    decreases |groups|
  {
    if |groups| == 0 {
      assert groups + extra == extra;
    } else {
      assert |groups| >= 4;
      var all := groups + extra;
      assert all[4..] == groups[4..] + extra;
      assert all[0] == groups[0] && all[1] == groups[1] && all[2] == groups[2] && all[3] == groups[3];
      ParseGroupsDropsPartialGroup(groups[4..], extra);
      assert ParseGroups(all[4..]) == ParseGroups(groups[4..]);
    }
  }

  lemma IntTextNoComma(i: int)
    ensures ',' !in IntText(i)
  {
    IntTextAlphabet(i);
  }

  lemma TupleFieldsNoComma(t: FlowTuple)
    ensures forall k :: 0 <= k < 4 ==> ',' !in TupleFields(t)[k]
  {
    IntTextNoComma(t.durationMs);
    IntTextNoComma(t.mode.Wire().n);
    IntTextNoComma(t.value);
    IntTextNoComma(t.brightness);
  }

  lemma ParseTupleFields(t: FlowTuple)
    requires t.durationMs <= U64_MAX
    ensures ParseTuple(TupleFields(t)[0], TupleFields(t)[1], TupleFields(t)[2], TupleFields(t)[3]) == Ok(t)
  {
    IntTextRoundTrip(t.durationMs, 0, U64_MAX);
    IntTextRoundTrip(t.value, 0, U32_MAX);
    ParseFlowModeCode(t.mode);
    IntTextRoundTrip(t.brightness, I8_MIN, I8_MAX);
  }

  lemma {:induction false} ParseGroupsFlowFields(flow: seq<FlowTuple>)
    requires forall k :: 0 <= k < |flow| ==> flow[k].durationMs <= U64_MAX
    ensures ParseGroups(FlowFields(flow)) == Ok(flow)
    ensures forall k :: 0 <= k < |FlowFields(flow)| ==> ',' !in FlowFields(flow)[k]
    ensures |FlowFields(flow)| == 4 * |flow|
  {
    if flow != [] {
      var head, rest := TupleFields(flow[0]), FlowFields(flow[1..]);
      ParseGroupsFlowFields(flow[1..]);
      ParseTupleFields(flow[0]);
      TupleFieldsNoComma(flow[0]);
      assert FlowFields(flow) == head + rest;
      assert (head + rest)[4..] == rest;
      assert [flow[0]] + flow[1..] == flow;
    }
  }

  lemma {:induction false} FlowFieldsJoin(flow: seq<FlowTuple>)
    requires |flow| > 0
    ensures Join(TupleTexts(flow), ",") == Join(FlowFields(flow), ",")
    decreases |flow|
  {
    if |flow| == 1 {
      assert flow[1..] == [];
      assert FlowFields(flow) == TupleFields(flow[0]);
    } else {
      FlowFieldsJoin(flow[1..]);
      assert TupleTexts(flow)[1..] == TupleTexts(flow[1..]);
      JoinAppend(TupleFields(flow[0]), FlowFields(flow[1..]), ",");
    }
  }

  /** Writing the tuples with commas between them and reading them back gives the same tuples. */
  lemma FlowRoundTrip(flow: seq<FlowTuple>)
    requires forall k :: 0 <= k < |flow| ==> flow[k].durationMs <= U64_MAX
    ensures FlowFromStr(Join(TupleTexts(flow), ",")) == Ok(flow)
  {
    ParseGroupsFlowFields(flow);
    if flow == [] {
      assert SplitOn("", ",") == [""];
    } else {
      FlowFieldsJoin(flow);
      var fields := FlowFields(flow);
      LeadFree(fields[|fields| - 1], ",");
      SplitJoin(fields, ",");
    }
  }

  /** The quoted flow parameter a command sends holds text that parses back to the same flow. */
  lemma FlowParamRoundTrip(flow: seq<FlowTuple>)
    requires forall k :: 0 <= k < |flow| ==> flow[k].durationMs <= U64_MAX
    ensures Unquote(FlowParam(flow)).Some? && FlowFromStr(Unquote(FlowParam(flow)).value) == Ok(flow)
  {
    FlowRoundTrip(flow);
  }

  // ---------------------------------------------------------------------
  // `Properties` and the `params!` list

  /** `Properties::stringify`: each property's literal, joined with commas. */
  function PropertiesText(properties: seq<Property>): string
  {
    Join(PropertyTexts(properties), ",")
  }

  function PropertyTexts(properties: seq<Property>): seq<string>
  {
    seq(|properties|, i requires 0 <= i < |properties| => LiteralText(properties[i].Wire()))
  }

  lemma PropertyLiteralNoComma(p: Property)
    ensures ',' !in LiteralText(p.Wire())
  {
    var t := p.Wire().text;
    assert LiteralText(p.Wire()) == "\"" + t + "\"";
  }

  /** Splitting the text of a non-empty property list on commas gives back each property's literal. */
  lemma PropertiesTextSplit(properties: seq<Property>)
    requires |properties| > 0
    ensures SplitOn(PropertiesText(properties), ",") == PropertyTexts(properties)
  {
    forall k | 0 <= k < |properties| ensures ',' !in PropertyTexts(properties)[k] {
      PropertyLiteralNoComma(properties[k]);
    }
    var texts := PropertyTexts(properties);
    LeadFree(texts[|texts| - 1], ",");
    SplitJoin(texts, ",");
  }

  // ---------------------------------------------------------------------
  // Commands (`gen_func!`)

  /** The light a command addresses: each `bg_` method is the background twin of a main one. */
  datatype Light = Main | Background

  /** Every request the library can send, with its arguments. */
  datatype Command =
    | GetProp(properties: seq<Property>)
    | SetPower(light: Light, power: Power, effect: Effect, durationMs: nat, mode: Mode)
    | Toggle(light: Light)
    | DevToggle
    | SetCtAbx(light: Light, ct: U16, effect: Effect, durationMs: nat)
    | SetRgb(light: Light, rgb: U32, effect: Effect, durationMs: nat)
    | SetHsv(light: Light, hue: U16, sat: U8, effect: Effect, durationMs: nat)
    | SetBright(light: Light, brightness: U8, effect: Effect, durationMs: nat)
    | SetScene(light: Light, scene: Class, val1: U64, val2: U64, val3: U64)
    | StartCf(light: Light, count: U8, cfAction: CfAction, flow: seq<FlowTuple>)
    | StopCf(light: Light)
    | SetAdjust(light: Light, adjustAction: AdjustAction, prop: Prop)
    | AdjustBright(light: Light, percentage: I8, durationMs: nat)
    | AdjustCt(light: Light, percentage: I8, durationMs: nat)
    | AdjustColor(light: Light, percentage: I8, durationMs: nat)
    | SetDefault(light: Light)
    | SetName(name: string)
    | SetMusic(musicAction: MusicAction, host: string, port: U16)
    | CronAdd(cronType: CronType, value: U64)
    | CronDel(cronType: CronType)

  /** The light addressed; commands without a background twin address the main light. */
  function Target(c: Command): Light
  {
    match c
    case GetProp(_) => Main
    case DevToggle => Main
    case SetName(_) => Main
    case SetMusic(_, _, _) => Main
    case CronAdd(_, _) => Main
    case CronDel(_) => Main
    case _ => c.light
  }

  /** The Rust name of the main-light method of a command. */
  function BaseName(c: Command): string
  {
    match c
    case GetProp(_) => "get_prop"
    case SetPower(_, _, _, _, _) => "set_power"
    case Toggle(_) => "toggle"
    case DevToggle => "dev_toggle"
    case SetCtAbx(_, _, _, _) => "set_ct_abx"
    case SetRgb(_, _, _, _) => "set_rgb"
    case SetHsv(_, _, _, _, _) => "set_hsv"
    case SetBright(_, _, _, _) => "set_bright"
    case SetScene(_, _, _, _, _) => "set_scene"
    case StartCf(_, _, _, _) => "start_cf"
    case StopCf(_) => "stop_cf"
    case SetAdjust(_, _, _) => "set_adjust"
    case AdjustBright(_, _, _) => "adjust_bright"
    case AdjustCt(_, _, _) => "adjust_ct"
    case AdjustColor(_, _, _) => "adjust_color"
    case SetDefault(_) => "set_default"
    case SetName(_) => "set_name"
    case SetMusic(_, _, _) => "set_music"
    case CronAdd(_, _) => "cron_add"
    case CronDel(_) => "cron_del"
  }

  /**
   * The `method` field a command sends: the Rust name of the function that
   * sends it (`stringify!($name)`), so `bg_` exactly for the background
   * light, and never a double quote.
   */
  function MethodName(c: Command): (r: string)
    ensures '"' !in r
    ensures Target(c) == Background <==> (|r| >= 3 && r[..3] == "bg_")
  {
    BaseNameShape(c);
    var r := (if Target(c) == Background then "bg_" else "") + BaseName(c);
    assert Target(c) == Main ==> r[0] != 'b';
    r
  }

  lemma BaseNameShape(c: Command)
    ensures |BaseName(c)| > 0 && BaseName(c)[0] != 'b' && '"' !in BaseName(c)
  {
    match c
    case GetProp(_) =>
    case SetPower(_, _, _, _, _) =>
    case Toggle(_) =>
    case DevToggle =>
    case SetCtAbx(_, _, _, _) =>
    case SetRgb(_, _, _, _) =>
    case SetHsv(_, _, _, _, _) =>
    case SetBright(_, _, _, _) =>
    case SetScene(_, _, _, _, _) =>
    case StartCf(_, _, _, _) =>
    case StopCf(_) =>
    case SetAdjust(_, _, _) =>
    case AdjustBright(_, _, _) =>
    case AdjustCt(_, _, _) =>
    case AdjustColor(_, _, _) =>
    case SetDefault(_) =>
    case SetName(_) =>
    case SetMusic(_, _, _) =>
    case CronAdd(_, _) =>
    case CronDel(_) =>
  }

  /** The `stringify` of each argument of a command, in the order of its parameters. */
  function ParamFields(c: Command): seq<string>
  {
    match c
    case GetProp(ps) => [PropertiesText(ps)]
    case SetPower(_, p, e, d, m) => [LiteralText(p.Wire()), LiteralText(e.Wire()), NatText(d), LiteralText(m.Wire())]
    case Toggle(_) => []
    case DevToggle => []
    case SetCtAbx(_, ct, e, d) => [NatText(ct), LiteralText(e.Wire()), NatText(d)]
    case SetRgb(_, rgb, e, d) => [NatText(rgb), LiteralText(e.Wire()), NatText(d)]
    case SetHsv(_, hue, sat, e, d) => [NatText(hue), NatText(sat), LiteralText(e.Wire()), NatText(d)]
    case SetBright(_, b, e, d) => [NatText(b), LiteralText(e.Wire()), NatText(d)]
    case SetScene(_, k, v1, v2, v3) => [LiteralText(k.Wire()), NatText(v1), NatText(v2), NatText(v3)]
    case StartCf(_, count, a, flow) => [NatText(count), LiteralText(a.Wire()), FlowParam(flow)]
    case StopCf(_) => []
    case SetAdjust(_, a, p) => [LiteralText(a.Wire()), LiteralText(p.Wire())]
    case AdjustBright(_, pc, d) => [IntText(pc), NatText(d)]
    case AdjustCt(_, pc, d) => [IntText(pc), NatText(d)]
    case AdjustColor(_, pc, d) => [IntText(pc), NatText(d)]
    case SetDefault(_) => []
    case SetName(name) => [Quote(name)]
    case SetMusic(a, host, port) => [LiteralText(a.Wire()), Quote(host), NatText(port)]
    case CronAdd(t, v) => [LiteralText(t.Wire()), NatText(v)]
    case CronDel(t) => [LiteralText(t.Wire())]
  }

  /** `params!`: the arguments' texts joined with commas; no arguments give the empty text. */
  function Params(c: Command): string
  {
    Join(ParamFields(c), ",")
  }

  /** `on`, `off`, `bg_on`, `bg_off`: switch a light at once, in normal mode. */
  function SwitchCommand(light: Light, power: Power): Command
  {
    SetPower(light, power, Effect.Sudden, 0, Mode.Normal)
  }

  /** `cron_get`: asks for the `delayoff` property instead of sending `cron_get`. */
  const CronGetCommand: Command := GetProp([Property.DelayOff])

  /** What the switch shortcuts send: `set_power` (or its twin) with `"sudden"`, 0 ms and mode 0. */
  lemma SwitchCommandText(light: Light, power: Power)
    ensures MethodName(SwitchCommand(light, power)) == if light == Main then "set_power" else "bg_set_power"
    ensures Params(SwitchCommand(light, power)) == LiteralText(power.Wire()) + ",\"sudden\",0,0"
  {
    SwitchMethodName(light, power);
    SwitchParams(light, power);
  }

  lemma SwitchMethodName(light: Light, power: Power)
    ensures MethodName(SwitchCommand(light, power)) == if light == Main then "set_power" else "bg_set_power"
  {
  }

  lemma SwitchParams(light: Light, power: Power)
    ensures Params(SwitchCommand(light, power)) == LiteralText(power.Wire()) + ",\"sudden\",0,0"
  {
    var fields := ParamFields(SwitchCommand(light, power));
    assert fields[1] == "\"sudden\"";
    assert fields[2] == "0" && fields[3] == "0";
    JoinFour(fields, ",");
    var p := fields[0];
    assert p + "," + "\"sudden\"" + "," + "0" + "," + "0" == p + ",\"sudden\",0,0";
  }

  /** `cron_get` sends `get_prop` for `"delayoff"`. */
  lemma CronGetText()
    ensures MethodName(CronGetCommand) == "get_prop" && Params(CronGetCommand) == "\"delayoff\""
  {
  }

  /** The parameters of the `set_power` request in the library's own tests. */
  lemma SetPowerParamsExample()
    ensures Params(SetPower(Main, Power.On, Effect.Smooth, 500, Mode.Normal)) == "\"on\",\"smooth\",500,0"
  {
    var fields := ParamFields(SetPower(Main, Power.On, Effect.Smooth, 500, Mode.Normal));
    FiveHundredText();
    assert fields[0] == LiteralText(Power.On.Wire()) == "\"on\"";
    assert fields[1] == LiteralText(Effect.Smooth.Wire()) == "\"smooth\"";
    assert fields[2] == NatText(500) == "500";
    assert fields[3] == NatText(0) == "0";
    JoinFour(fields, ",");
    var a := "\"on\"" + "," + "\"smooth\"";
    assert a == "\"on\",\"smooth\"";
    var b := a + "," + "500";
    assert b == "\"on\",\"smooth\",500";
    assert Join(fields, ",") == b + "," + "0";
  }

  lemma FiveHundredText()
    ensures NatText(500) == "500"
  {
    assert Digits(5, 10) == "5";
    assert Digits(50, 10) == "50";
  }

  /** The parameters of the `get_prop` request in the library's own tests. */
  lemma GetPropParamsExample()
    ensures Params(GetProp([Property.Name, Property.Power])) == "\"name\",\"power\""
  {
    var props := PropertyTexts([Property.Name, Property.Power]);
    assert |props| == 2 && props[0] == LiteralText(Property.Name.Wire()) && props[1] == LiteralText(Property.Power.Wire());
    assert props[0] == "\"name\"" && props[1] == "\"power\"";
    assert props[1..] == [props[1]];
    assert Join(props, ",") == props[0] + "," + Join(props[1..], ",");
    assert "\"name\"" + "," + "\"power\"" == "\"name\",\"power\"";
  }
}
