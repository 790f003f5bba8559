/** model/employee.js: the `pre('save')` normalisation hook and the `generateFindHash` retry
    loop. Saving and `crypto.randomBytes` are parameters; bcrypt and JWT signing are not part
    of this model. */
module EmployeeModel {
  import opened Ids
  import opened Http
  import opened Schemas

  /** The effect of the `pre('save')` hook on a document's fields: `username` defaults to
      `email`, and an admin gets both the shipping and the receiving role. */
  function Normalised(d: EmployeeDraft): (r: EmployeeDraft)
    ensures Truthy(d.username) ==> r.username == d.username
    ensures !Truthy(d.username) ==> r.username == d.email
    ensures d.admin == Some(true) ==> r.shipping == Some(true) && r.receiving == Some(true)
    ensures d.admin != Some(true) ==> r.shipping == d.shipping && r.receiving == d.receiving
    ensures r.name == d.name && r.email == d.email && r.password == d.password && r.admin == d.admin
  {
    var named := if Truthy(d.username) then d else d.(username := d.email);
    if d.admin == Some(true) then named.(shipping := Some(true), receiving := Some(true)) else named
  }

  /** The role invariant the hook establishes. */
  predicate RolesConsistent(d: EmployeeDraft) {
    d.admin == Some(true) ==> d.shipping == Some(true) && d.receiving == Some(true)
  }

  /** After the hook an admin holds both roles, and running the hook again changes nothing. */
  lemma NormalisedIsFixpoint(d: EmployeeDraft)
    ensures RolesConsistent(Normalised(d))
    ensures Normalised(Normalised(d)) == Normalised(d)
  {
  }

  /** Mongoose validates before the user hooks run; the hook touches no required path, so
      the order does not matter. */
  lemma HookKeepsValidity(d: EmployeeDraft)
    ensures ValidateEmployee(Normalised(d)).Some? <==> ValidateEmployee(d).Some?
    ensures ValidateEmployee(d).Some? ==> ValidateEmployee(Normalised(d)).value.name == ValidateEmployee(d).value.name
  {
  }

  /** How the database write of one `this.save()` settles, for a document that passed validation. */
  datatype SaveOutcome = Saved | SaveFailed(error: Error)

  /** How each `this.save()` of a document with fields `d` settles. Mongoose validates before
      the `pre('save')` hook runs: an invalid document is rejected with a ValidationError and
      is never written; a valid one settles as its write does. The hook keeps validity, so the
      answer is the same on every attempt. */
  function Attempts(d: EmployeeDraft, save: nat -> SaveOutcome): nat -> SaveOutcome
  {
    (i: nat) => if ValidateEmployee(d).None? then SaveFailed(ValidationError) else save(i)
  }

  /** An invalid document: all five saves reject, and so does the loop, with a ValidationError. */
  lemma InvalidNeverSaves(d: EmployeeDraft, save: nat -> SaveOutcome, hex: nat -> string)
    requires ValidateEmployee(d).None?
    ensures FindHashFrom(Attempts(d, save), hex, 0) == Rejected(ValidationError)
    ensures SavesFrom(Attempts(d, save), 0) == 5
  {
    GivesUpAfterFive(Attempts(d, save), hex, 0);
  }

  /** A valid document: the loop settles as its writes do. */
  lemma {:induction false} ValidSavesAsWritten(d: EmployeeDraft, save: nat -> SaveOutcome, hex: nat -> string, attempts: nat)
    requires ValidateEmployee(d).Some? && attempts <= 4
    ensures FindHashFrom(Attempts(d, save), hex, attempts) == FindHashFrom(save, hex, attempts)
    ensures SavesFrom(Attempts(d, save), attempts) == SavesFrom(save, attempts)
    decreases 4 - attempts
  {
    if attempts < 4 {
      ValidSavesAsWritten(d, save, hex, attempts + 1);
    }
  }

  /** What `generateFindHash` settles with when its `attempts` counter stands at `attempts`:
      the hex string of the first save that succeeds, or the error of the fifth failed one. */
  function FindHashFrom(save: nat -> SaveOutcome, hex: nat -> string, attempts: nat): Promise<string>
    requires attempts <= 4
    decreases 4 - attempts
  {
    match save(attempts)
    case Saved => Resolved(hex(attempts))
    case SaveFailed(e) => if attempts > 3 then Rejected(e) else FindHashFrom(save, hex, attempts + 1)
  }

  /** How many times `save` is called from there on: at least once, at most five times in all. */
  function SavesFrom(save: nat -> SaveOutcome, attempts: nat): (n: nat)
    requires attempts <= 4
    ensures 1 <= n <= 5 - attempts
    decreases 4 - attempts
  {
    if save(attempts).Saved? || attempts > 3 then 1 else 1 + SavesFrom(save, attempts + 1)
  }

  /** The first successful save decides the result. */
  lemma {:induction false} FirstSuccessWins(save: nat -> SaveOutcome, hex: nat -> string, attempts: nat, i: nat)
    requires attempts <= i < 5
    requires save(i).Saved?
    requires forall j | attempts <= j < i :: save(j).SaveFailed?
    ensures FindHashFrom(save, hex, attempts) == Resolved(hex(i))
    ensures SavesFrom(save, attempts) == i - attempts + 1
    decreases i - attempts
  {
    if attempts < i {
      FirstSuccessWins(save, hex, attempts + 1, i);
    }
  }

  /** Five failed saves: the promise rejects with the last error. */
  lemma {:induction false} GivesUpAfterFive(save: nat -> SaveOutcome, hex: nat -> string, attempts: nat)
    requires attempts <= 4
    requires forall j | attempts <= j < 5 :: save(j).SaveFailed?
    ensures FindHashFrom(save, hex, attempts) == Rejected(save(4).error)
    ensures SavesFrom(save, attempts) == 5 - attempts
    decreases 4 - attempts
  {
    if attempts < 4 {
      GivesUpAfterFive(save, hex, attempts + 1);
    }
  }

  /** `generateFindHash` resolves exactly when one of the first five saves succeeds. */
  lemma {:induction false} ResolvesIffSomeSaveSucceeds(save: nat -> SaveOutcome, hex: nat -> string, attempts: nat)
    requires attempts <= 4
    ensures FindHashFrom(save, hex, attempts).Resolved? <==> exists i :: attempts <= i < 5 && save(i).Saved?
    decreases 4 - attempts
  {
    if save(attempts).SaveFailed? && attempts < 4 {
      ResolvesIffSomeSaveSucceeds(save, hex, attempts + 1);
    }
  }

  /** An Employee document. `findHash` is not a schema path: it lives on the document only. */
  class EmployeeDoc {
    var name: Option<string>
    var username: Option<string>
    var email: Option<string>
    var password: Option<string>
    var admin: Option<bool>
    var shipping: Option<bool>
    var receiving: Option<bool>
    var findHash: Option<string>

    function Fields(): EmployeeDraft
      reads this
    {
      EmployeeDraft(name, username, email, password, admin, shipping, receiving)
    }

    constructor (d: EmployeeDraft)
      ensures Fields() == d && findHash == None
    {
      name, username, email, password := d.name, d.username, d.email, d.password;
      admin, shipping, receiving := d.admin, d.shipping, d.receiving;
      findHash := None;
    }

    /** `employeeSchema.pre('save', ...)`. */
    method PreSave()
      modifies this
      ensures Fields() == Normalised(old(Fields())) && findHash == old(findHash)
    {
      if !Truthy(username) {
        username := email;
      }
      if admin == Some(true) {
        shipping := Some(true);
        receiving := Some(true);
      }
    }

    /** `generateFindHash()`: draw a hash, save, and retry on failure while `attempts` is at
        most 3. A save first validates the document and runs the hook only if that passes;
        `save` is how the write then settles. `saves` is the number of save calls made. */
    method GenerateFindHash(save: nat -> SaveOutcome, hex: nat -> string) returns (r: Promise<string>, saves: nat)
      modifies this
      ensures r == FindHashFrom(Attempts(old(Fields()), save), hex, 0)
      ensures saves == SavesFrom(Attempts(old(Fields()), save), 0) && 1 <= saves <= 5
      ensures findHash == Some(hex(saves - 1))
      // an invalid document is rejected five times and never reaches the hook
      ensures ValidateEmployee(old(Fields())).None? ==>
        r == Rejected(ValidationError) && saves == 5 && Fields() == old(Fields())
      // a valid one runs the hook and settles as its writes do
      ensures ValidateEmployee(old(Fields())).Some? ==>
        r == FindHashFrom(save, hex, 0) && saves == SavesFrom(save, 0)
        && Fields() == Normalised(old(Fields()))
    {
      ghost var start := Fields();
      HookKeepsValidity(start);
      NormalisedIsFixpoint(start);
      if ValidateEmployee(start).None? {
        InvalidNeverSaves(start, save, hex);
      } else {
        ValidSavesAsWritten(start, save, hex, 0);
      }
      ghost var tries := Attempts(start, save);
      var attempts := 0;
      while true
        invariant 0 <= attempts <= 4
        invariant FindHashFrom(tries, hex, 0) == FindHashFrom(tries, hex, attempts)
        invariant SavesFrom(tries, 0) == attempts + SavesFrom(tries, attempts)
        invariant Fields() == if attempts == 0 || ValidateEmployee(start).None? then start else Normalised(start)
        invariant ValidateEmployee(Fields()).None? <==> ValidateEmployee(start).None?
        decreases 4 - attempts
      {
        findHash := Some(hex(attempts));
        var outcome;
        if ValidateEmployee(Fields()).None? {
          outcome := SaveFailed(ValidationError);
        } else {
          PreSave();
          outcome := save(attempts);
        }
        assert outcome == tries(attempts);
        if outcome.Saved? {
          return Resolved(findHash.value), attempts + 1;
        }
        if attempts > 3 {
          return Rejected(outcome.error), attempts + 1;
        }
        attempts := attempts + 1;
      }
    }
  }
}
