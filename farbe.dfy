/** The colour enumeration of a bike (src/model/Farbe.java). */
module Farben {
  import opened Wrappers

  datatype Farbe = Rot | Gruen | Gelb | Blau

  /** The names of the four constants. */
  const Names: set<string> := {"Rot", "Gruen", "Gelb", "Blau"}

  /** `toString()` of an enum constant: its declared name. This is the text
      stored in the `farbe` column, and `valueOf` reads it back. */
  function Name(f: Farbe): (s: string)
    ensures s in Names
    ensures ValueOf(s) == Some(f)
  {
    match f
    case Rot => "Rot"
    case Gruen => "Gruen"
    case Gelb => "Gelb"
    case Blau => "Blau"
  }

  /** `Farbe.valueOf(s)`: the constant whose name is exactly `s`; `None` stands
      for the IllegalArgumentException thrown for any other text. */
  function ValueOf(s: string): (r: Option<Farbe>)
    ensures r.Some? <==> s in Names
  {
    if s == "Rot" then Some(Rot)
    else if s == "Gruen" then Some(Gruen)
    else if s == "Gelb" then Some(Gelb)
    else if s == "Blau" then Some(Blau)
    else None
  }

  /** A text `valueOf` accepts is the name of the constant it returns. */
  lemma ValueOfNamesResult(s: string)
    requires ValueOf(s).Some?
    ensures Name(ValueOf(s).value) == s
  {
  }
}
