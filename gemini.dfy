/** The text generator of services/gemini.ts: one prompt per chapter, a call to an
    external model whose outcome is a parameter, and the fallback choice that turns
    every outcome into a non-empty string. */
module Gemini {

  datatype Option<T> = None | Some(value: T)

  /** What the external model call can come back with: an answer whose `text` may be
      missing or empty, or a thrown error (network failure, rejected key, ...). */
  datatype Outcome = Answered(text: Option<string>) | Thrown

  /** The prompt for each chapter, indexed by step. */
  const Prompts: seq<string> := [
    "Escribe una frase poética sobre cómo nuestro amor galopa como un corcel incansable sobre un campo de pétalos de sakura, ignorando la distancia. Máximo 15 palabras.",
    "Escribe una frase sobre la confianza como las raíces profundas de un cerezo y la lealtad de un espíritu de caballo que siempre vuelve a ti. Máximo 15 palabras.",
    "Escribe una frase sobre nuestras palabras como pétalos al viento de glicinas, volando hacia tu alma en el lomo de un suspiro. Máximo 15 palabras.",
    "Escribe una frase sobre la paciencia de esperar la primavera para florecer juntos, con la nobleza y fuerza de un caballo fiel. Máximo 15 palabras.",
    "Escribe una frase sobre un futuro donde cabalgamos libres entre bosques de sakuras eternas, sin mapas ni fronteras. Máximo 15 palabras.",
    "Escribe una frase final sobre nuestra unión eterna: un galope infinito en un jardín que nunca deja de florecer para nosotros. Máximo 15 palabras."
  ]

  /** Appended to every prompt before it is sent. */
  const Suffix: string := " En español muy romántico y poético."

  /** Returned when the model answers without text. */
  const EmptyFallback: string := "Nuestro amor es el mapa que guía mis pasos hacia ti."

  /** Returned when the call throws. */
  const ErrorFallback: string := "La distancia es solo una prueba de lo lejos que puede viajar nuestro amor."

  /** The `contents` sent for `step`. An index outside the table reads `undefined`,
      which string concatenation spells out. */
  function RequestText(step: int): (r: string)
    ensures |r| > |Suffix| && r[|r| - |Suffix|..] == Suffix
    ensures 0 <= step < |Prompts| ==> |r| == |Prompts[step]| + |Suffix| && r[..|Prompts[step]|] == Prompts[step]
  {
    (if 0 <= step < |Prompts| then Prompts[step] else "undefined") + Suffix
  }

  /** The text carried by an answer, with a missing text read as empty, as `||` does. */
  function AnswerText(outcome: Outcome): (t: string)
    requires outcome.Answered?
  {
    match outcome.text
    case Some(t) => t
    case None => ""
  }

  /** The try/catch and `||` of generateLoveStep: keep a non-empty answer, replace an
      empty one, absorb an error. */
  function Choose(outcome: Outcome): (r: string)
    ensures r != ""
    ensures outcome.Answered? && AnswerText(outcome) != "" ==> r == AnswerText(outcome)
    ensures outcome.Answered? && AnswerText(outcome) == "" ==> r == EmptyFallback
    ensures outcome.Thrown? ==> r == ErrorFallback
  {
    match outcome
    case Thrown => ErrorFallback
    case Answered(_) => if AnswerText(outcome) != "" then AnswerText(outcome) else EmptyFallback
  }

  /** generateLoveStep(step), with the model call given as `api`: the outcome the
      model produces for a request text. */
  function GenerateLoveStep(step: int, api: string -> Outcome): (r: string)
    ensures r != ""
    ensures var o := api(RequestText(step));
      (o.Answered? && AnswerText(o) != "" ==> r == AnswerText(o)) &&
      (o.Answered? && AnswerText(o) == "" ==> r == EmptyFallback) &&
      (o.Thrown? ==> r == ErrorFallback)
  {
    Choose(api(RequestText(step)))
  }

  /** Different chapters send different requests: each page has a prompt of its own. */
  lemma RequestsDistinct(i: int, j: int)
    requires 0 <= i < j < |Prompts|
    ensures RequestText(i) != RequestText(j)
  {
  }
}
