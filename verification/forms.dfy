/**
  Form decoding shared by the add-project and update-project handlers:
  `c.FormValue`, the four technology checkboxes and the project fields.
 */
module Forms {
  import opened Dates

  /** The request's parsed form: every field with its values in arrival order. */
  type Form = map<string, seq<string>>

  /** `c.FormValue(key)`: the first value of the field, or "" when it is absent or has no value. */
  function FormValue(form: Form, key: string): (v: string)
    ensures !(key in form && 0 < |form[key]|) ==> v == ""
    ensures key in form && 0 < |form[key]| ==> v == form[key][0]
  {
    if key in form && 0 < |form[key]| then form[key][0] else ""
  }

  /** The value a ticked checkbox submits in the project forms. */
  const CheckedValue := "checked"

  /** A checkbox is ticked exactly when its first value is "checked"; an absent field reads as "". */
  function Checked(form: Form, field: string): (b: bool)
    ensures b <==> field in form && 0 < |form[field]| && form[field][0] == CheckedValue
  {
    FormValue(form, field) == CheckedValue
  }

  datatype Technologies = Technologies(html: bool, css: bool, react: bool, js: bool)

  /** The flags stored with a project, read from the fields "html", "css", "react" and "js". */
  function DecodeTechnologies(form: Form): (t: Technologies)
    ensures t.html <==> Checked(form, "html")
    ensures t.css <==> Checked(form, "css")
    ensures t.react <==> Checked(form, "react")
    ensures t.js <==> Checked(form, "js")
  {
    Technologies(Checked(form, "html"), Checked(form, "css"), Checked(form, "react"), Checked(form, "js"))
  }

  /** What a browser submits for the four boxes: "checked" for a ticked box, nothing for the others. */
  function EncodeTechnologies(t: Technologies): (form: Form)
    ensures forall k :: k in form ==> form[k] == [CheckedValue]
  {
    (if t.html then map["html" := [CheckedValue]] else map[])
    + (if t.css then map["css" := [CheckedValue]] else map[])
    + (if t.react then map["react" := [CheckedValue]] else map[])
    + (if t.js then map["js" := [CheckedValue]] else map[])
  }

  /** Decoding what the browser submits recovers the ticked boxes. */
  lemma DecodeEncode(t: Technologies)
    ensures DecodeTechnologies(EncodeTechnologies(t)) == t
  {
    var form := EncodeTechnologies(t);
    assert "html" in form <==> t.html;
    assert "css" in form <==> t.css;
    assert "react" in form <==> t.react;
    assert "js" in form <==> t.js;
  }

  /** Only the four checkbox fields matter: other fields never change the flags. */
  lemma DecodeIgnoresOtherFields(form: Form, key: string, values: seq<string>)
    requires key !in {"html", "css", "react", "js"}
    ensures DecodeTechnologies(form[key := values]) == DecodeTechnologies(form)
  {
  }

  /** The fields of a project as the add and update handlers send them to the database. */
  datatype ProjectFields = ProjectFields(
    name: string,
    start: Date,
    end: Date,
    description: string,
    technologies: Technologies,
    image: string)

  /**
    The form of the add and update handlers. Dates that do not parse become
    the zero time; `image` is the path the upload interceptor stored.
   */
  function DecodeProject(form: Form, image: string): (p: ProjectFields)
    ensures p.name == FormValue(form, "inputProjectName")
    ensures p.description == FormValue(form, "inputDesc")
    ensures p.image == image
    ensures Representable(p.start) && Representable(p.end)
    ensures Parse(FormValue(form, "inputStartDate")).Some? ==> Format(p.start) == FormValue(form, "inputStartDate")
    ensures Parse(FormValue(form, "inputEndDate")).Some? ==> Format(p.end) == FormValue(form, "inputEndDate")
    ensures Parse(FormValue(form, "inputStartDate")).None? ==> p.start == ZeroTime
    ensures Parse(FormValue(form, "inputEndDate")).None? ==> p.end == ZeroTime
    ensures p.technologies == DecodeTechnologies(form)
  {
    var startText, endText := FormValue(form, "inputStartDate"), FormValue(form, "inputEndDate");
    ProjectFields(
      FormValue(form, "inputProjectName"),
      ParseOrZero(startText),
      ParseOrZero(endText),
      FormValue(form, "inputDesc"),
      DecodeTechnologies(form),
      image)
  }
}
