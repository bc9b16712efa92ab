/** The recruiter profile form: its schema, its default values, and a
    submission that logs the values and shows a toast. */
module Profile {
  import opened Text
  import opened Validation

  datatype ProfileValues = ProfileValues(name: string, email: string)

  const NameMessage: string := "Name must be at least 2 characters."
  const EmailMessage: string := "Please enter a valid email address."

  const Defaults: ProfileValues := ProfileValues("Jane Doe", "recruiter@hirelogic.ai")

  predicate ProfileValid(v: ProfileValues) {
    MinLength(v.name, 2) && ValidEmail(v.email)
  }

  /** `profileSchema.safeParse`: one message per failing field. */
  function ValidateProfile(v: ProfileValues): (errors: seq<FieldError>)
    ensures errors == [] <==> ProfileValid(v)
    ensures FieldError("name", NameMessage) in errors <==> |v.name| < 2
    ensures FieldError("email", EmailMessage) in errors <==> !ValidEmail(v.email)
  {
    Check(MinLength(v.name, 2), "name", NameMessage) +
    Check(ValidEmail(v.email), "email", EmailMessage)
  }

  /** The default values pass the schema. */
  lemma DefaultsValid()
    ensures ValidateProfile(Defaults) == []
  {
    var local, host, top := "recruiter", "hirelogic", "ai";
    assert Defaults.email == local + "@" + host + "." + top;
    EmailFromParts(local, host, top);
  }

  datatype Effect = Log(values: ProfileValues) | Toast(title: string, description: string)

  /** `onSubmit`: the values stay as they are; the submission is logged and
      one toast is shown. */
  function Submit(v: ProfileValues): (r: (ProfileValues, seq<Effect>))
    ensures r.0 == v
    ensures r.1 == [Log(v), Toast("Profile Updated", "Your profile has been successfully updated.")]
  {
    (v, [Log(v), Toast("Profile Updated", "Your profile has been successfully updated.")])
  }

  /** `form.handleSubmit(onSubmit)`: the resolver's field errors, and the
      effects of `onSubmit`, which runs only when there are none. */
  function HandleSubmit(v: ProfileValues): (r: (seq<FieldError>, seq<Effect>))
    ensures r.0 == [] <==> ProfileValid(v)
    ensures r.1 == [] <==> !ProfileValid(v)
    ensures ProfileValid(v) ==> r.1 == Submit(v).1
  {
    var errors := ValidateProfile(v);
    (errors, if errors == [] then Submit(v).1 else [])
  }

  /** Submitting the untouched form logs the defaults and shows the toast. */
  lemma DefaultsSubmit()
    ensures HandleSubmit(Defaults) == ([], [Log(Defaults), Toast("Profile Updated", "Your profile has been successfully updated.")])
  {
    DefaultsValid();
  }
}
