/**
 * Query-string parameters as the controllers receive them, and the two ways the controllers
 * read them: JavaScript truthiness (`if (months)`, `!principal`) and number parsing.
 */
module Query {
  import opened Wrappers

  /**
   * A parameter that is present in the query string: its raw text and the number `parseFloat`
   * reads from that text. The model takes the reading as given instead of parsing the text.
   */
  datatype Param = Param(text: string, number: real)

  /**
   * JavaScript truthiness of a query parameter: a string is falsy only when it is empty, so a
   * parameter is truthy when it is present and has at least one character.
   */
  predicate Truthy(q: Option<Param>): (b: bool)
    ensures b <==> q.Some? && |q.value.text| > 0
  {
    q.Some? && q.value.text != ""
  }

  /** The text decides, not its number: "0" and "false" are truthy, an empty text is not. */
  lemma TruthyByText(x: real)
    ensures !Truthy(None)
    ensures !Truthy(Some(Param("", x)))
    ensures Truthy(Some(Param("0", 0.0)))
    ensures Truthy(Some(Param("false", x)))
  {
  }

  /** x is a whole number. */
  predicate IsWhole(x: real)
  {
    x.Floor as real == x
  }

  /** `parseInt` of a numeral: the number with its fraction cut off, towards zero. */
  function ParseInt(x: real): (n: int)
    ensures x >= 0.0 ==> 0 <= n && n as real <= x < n as real + 1.0
    ensures x < 0.0 ==> n <= 0 && n as real - 1.0 < x <= n as real
  {
    if x >= 0.0 then x.Floor else -((-x).Floor)
  }

  /** Cutting off the fraction leaves a whole number alone. */
  lemma ParseIntOfWhole(x: real)
    requires IsWhole(x)
    ensures ParseInt(x) as real == x
  {
    if x < 0.0 {
      assert (-x).Floor == -(x.Floor);
    }
  }
}
