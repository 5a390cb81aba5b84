/**
 * The sign-up handler `index`: on a valid POST it stores a record for the
 * user under their name in the in-memory `EXAMPLE_DB` dictionary. The record
 * holds every form field except `name` and `password`, and then `password`
 * mapped to the salted hash. The form is a map from field names to the
 * submitted text; whether the request is a POST that passes validation is an
 * input.
 */
module Registration {
  import opened Octets
  import opened PasswordHash

  /** A value in a user record: submitted text, or the password hash. */
  datatype Value = Text(text: string) | Digest(digest: Bytes)

  type Record = map<string, Value>

  /** The submitted form: each field's name and its data. */
  type Form = map<string, string>

  const Registered: string := "User registered, password hashed!"

  /** `{field.name: field.data for field in form if field.name not in ('name', 'password')}`. */
  function FormFields(form: Form): (r: Record)
    ensures r.Keys == form.Keys - {"name", "password"}
    ensures forall f :: f in r ==> r[f] == Text(form[f])
  {
    map f | f in form && f != "name" && f != "password" :: Text(form[f])
  }

  /**
   * The record of a new user: the form's other fields as text, plus the hash
   * under `password`; the name is the key and is not repeated inside.
   */
  function NewRecord(form: Form, hashed: Bytes): (r: Record)
    ensures r.Keys == form.Keys - {"name"} + {"password"}
    ensures r["password"] == Digest(hashed)
    ensures forall f :: f in form && f != "name" && f != "password" ==> r[f] == Text(form[f])
  {
    FormFields(form)["password" := Digest(hashed)]
  }

  /** The `EXAMPLE_DB` dictionary, keyed by user name. */
  class UserDb {
    var users: map<string, Record>

    constructor ()
      ensures users == map[]
    {
      users := map[];
    }

    /**
     * `index`: without a valid POST nothing changes; with one, the user's
     * entry is replaced by a fresh record whose `password` is the hash of
     * the submitted password, and the handler reports it.
     */
    method Register(validPost: bool, form: Form, salt: Bytes, kdf: Kdf) returns (notifications: seq<string>)
      requires "name" in form && "password" in form && |salt| == SaltLength
      modifies this
      ensures !validPost ==> users == old(users) && notifications == []
      ensures validPost ==> notifications == [Registered]
      ensures validPost ==>
        users == old(users)[form["name"] := NewRecord(form, HashPassword(form["password"], salt, kdf))]
    {
      notifications := [];
      if validPost {
        var name := form["name"];
        var password := form["password"];
        users := users[name := FormFields(form)];
        var hashed := HashPassword(password, salt, kdf);
        users := users[name := users[name]["password" := Digest(hashed)]];
        notifications := notifications + [Registered];
      }
    }
  }

  /** Registration replaces the entry of that name and leaves every other name's entry as it was. */
  lemma RegisterFrame(users: map<string, Record>, form: Form, salt: Bytes, kdf: Kdf, other: string)
    requires "name" in form && "password" in form && |salt| == SaltLength
    requires other != form["name"]
    ensures var after := users[form["name"] := NewRecord(form, HashPassword(form["password"], salt, kdf))];
      (other in after <==> other in users) && (other in users ==> after[other] == users[other])
  {
  }

  /** The stored record never holds the plaintext under `password`, and the stored hash verifies against it. */
  lemma RegisteredPasswordVerifies(form: Form, salt: Bytes, kdf: Kdf)
    requires "name" in form && "password" in form && |salt| == SaltLength
    ensures var r := NewRecord(form, HashPassword(form["password"], salt, kdf));
      r["password"].Digest? && CheckPassword(form["password"], r["password"].digest, kdf)
  {
    CheckAfterHash(form["password"], salt, kdf);
  }
}
