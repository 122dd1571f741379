// The value of a UCI engine option, `options::UCIOptionType` of
// movegen/src/uci/client.rs, and its text form: `to_str` prints a value as
// the engine protocol expects it, `from_str` reads a value given the
// option's type name.
module UciOptions {
  import opened Decimal

  /** The values of Rust's `isize` on a 64-bit target. */
  type Isize = x: int | IsizeMin <= x <= IsizeMax

  datatype UciOptionType =
    | Check(flag: bool)
    | Spin(spin: Isize)
    | Combo(combo: string)
    | Button
    | String(text: string)

  /** `UCIOptionType::to_str`. */
  function ToStr(o: UciOptionType): string
  {
    match o
    case Check(v) => if v then "true" else "false"
    case Button => ""
    case Spin(v) => Show(v)
    case Combo(v) => v
    case String(v) => v
  }

  /** `UCIOptionType::from_str`: None only for a `spin` value that is not an `isize`. */
  function FromStr(optionType: string, value: string): Option<UciOptionType>
  {
    match optionType
    case "check" => Some(Check(value == "true"))
    case "spin" =>
      (match ParseIsize(value)
       case Some(v) => Some(Spin(v))
       case None => None)
    case "combo" => Some(Combo(value))
    case "string" => Some(String(value))
    case _ => Some(Button)
  }

  /** The type name the engine announces for an option of this kind. */
  function Kind(o: UciOptionType): string
  {
    match o
    case Check(_) => "check"
    case Spin(_) => "spin"
    case Combo(_) => "combo"
    case Button => "button"
    case String(_) => "string"
  }

  /** Reading back the printed value under its own type name gives the value. */
  lemma FromToStr(o: UciOptionType)
    ensures FromStr(Kind(o), ToStr(o)) == Some(o)
  {
    if o.Spin? {
      ParseShow(o.spin, IsizeMin, IsizeMax);
    }
  }

  /**
   * Reading fails only for a `spin` whose text is not an `isize`; every type
   * name other than the four value-carrying ones, "button" included, gives
   * `Button`.
   */
  lemma FromStrCases(optionType: string, value: string)
    ensures FromStr(optionType, value).None? <==> (optionType == "spin" && ParseIsize(value).None?)
    ensures optionType !in {"check", "spin", "combo", "string"} ==> FromStr(optionType, value) == Some(Button)
    ensures FromStr(optionType, value).Some? ==>
      Kind(FromStr(optionType, value).value) == (if optionType in {"check", "spin", "combo", "string"} then optionType else "button")
  {
  }

  /** A `check` value is true for the text "true" alone: any other text reads as false. */
  lemma CheckText(value: string)
    ensures FromStr("check", value) == Some(Check(value == "true"))
    ensures ToStr(FromStr("check", value).value) == (if value == "true" then "true" else "false")
  {
  }

  /** Text options keep their text unchanged in both directions. */
  lemma TextRoundTrip(optionType: string, value: string)
    requires optionType == "combo" || optionType == "string"
    ensures FromStr(optionType, value).Some? && ToStr(FromStr(optionType, value).value) == value
  {
  }

  /**
   * A `spin` text that reads is printed back in canonical form: the printed
   * text reads as the same number.
   */
  lemma SpinCanonical(value: string)
    requires FromStr("spin", value).Some?
    ensures var o := FromStr("spin", value).value;
      o.Spin? && ParseIsize(ToStr(o)) == ParseIsize(value)
  {
    var o := FromStr("spin", value).value;
    ParseShow(o.spin, IsizeMin, IsizeMax);
  }
}
