/** The rows of `agreement_fields`, shared by the draft editor, the envelope and templates. */
module Records {
  import opened Basics
  import Rotation

  /** A submitted or stored text together with what the server makes of it: blank once
      trimmed; once trimmed, an image the gate accepts; just as it is, an image the stamp can
      draw; a checkbox that reads as checked. */
  datatype Value = Value(text: string, blank: bool, image: bool, drawable: bool, checked: bool)

  const EMPTY := Value("", true, false, false, false)

  datatype Kind = Signature | Initials | Checkbox | Plain(name: string)

  datatype Field = Field(
    id: int, owner: Option<int>, kind: Kind, page: int, rect: Rotation.Rect, required: bool,
    value: Value, placeholder: string, prefill: bool, prompt: string, key: string)
}
