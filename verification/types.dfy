/** The records the workflow passes around: a patient case, the clinician's hypothesis,
    and the two kinds of answer the reasoning service gives back. */
module Types {

  /** The three values the sex selector offers: 'M', 'F' and 'Other'. */
  datatype Sex = Male | Female | Other

  /** Vital signs. Heart rate, temperature and oxygen saturation are JavaScript numbers
      (modelled as reals); blood pressure is free text such as "120/80". */
  datatype Vitals = Vitals(hr: real, bp: string, temp: real, o2: real)

  /** One patient case. Symptoms keep their insertion order and may repeat. */
  datatype Patient = Patient(
    id: string,
    name: string,
    age: int,
    sex: Sex,
    symptoms: seq<string>,
    history: string,
    vitals: Vitals)

  /** The clinician's committed claim; confidence is a percentage from the slider. */
  datatype Hypothesis = Hypothesis(diagnosis: string, confidence: int, reasoning: string)

  /** A Socratic prompt together with the bias it is meant to expose. */
  datatype Nudge = Nudge(content: string, commonMistake: string)

  /** The service's own diagnosis and its confidence percentage. */
  datatype Analysis = Analysis(diagnosis: string, confidence: int)
}
