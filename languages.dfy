/**
 * The `Language` enumeration of the transcription layer. It is a string
 * enumeration: every member is identified by its value, a BCP-47 style tag
 * such as "hi-IN" or "zh". A language is therefore modelled by that value,
 * and only the members the modelled services name get a constant here.
 */
module Languages {

  datatype Language = Language(value: string)

  // Base languages (the XTTS table).
  const CS := Language("cs")
  const DE := Language("de")
  const EN := Language("en")
  const ES := Language("es")
  const FR := Language("fr")
  const HI := Language("hi")
  const HU := Language("hu")
  const IT := Language("it")
  const JA := Language("ja")
  const KO := Language("ko")
  const NL := Language("nl")
  const PL := Language("pl")
  const PT := Language("pt")
  const RU := Language("ru")
  const TR := Language("tr")
  const ZH := Language("zh")

  // Regional variants (the Sarvam table).
  const BN_IN := Language("bn-IN")
  const GU_IN := Language("gu-IN")
  const HI_IN := Language("hi-IN")
  const KN_IN := Language("kn-IN")
  const ML_IN := Language("ml-IN")
  const MR_IN := Language("mr-IN")
  const TA_IN := Language("ta-IN")
  const TE_IN := Language("te-IN")
  const PA_IN := Language("pa-IN")
  const OR_IN := Language("or-IN")
  const EN_US := Language("en-US")
  const EN_IN := Language("en-IN")
  const AS_IN := Language("as-IN")
}
