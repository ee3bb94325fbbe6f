/** The console script that promotes an existing account to admin: it reads
    a database URL, an e-mail address and a confirmation, then sets the role
    of the accounts with that exact address to `admin`. */
module AdminScript {
  import opened Strings
  import opened Seqs
  import opened Records
  import opened DbConfig

  /** How the script ends: an exit status, or the promotion it performs. */
  datatype Outcome = Exit(status: int) | Promote(url: string, email: string)

  const Yes: seq<string> := ["sim", "s", "yes", "y"]

  /** The three answers, each stripped; the e-mail and the confirmation are
      also lower-cased. An empty URL or e-mail ends with status 1, any
      confirmation but `sim`, `s`, `yes`, `y` with status 0. */
  function Run(urlInput: string, emailInput: string, answer: string): Outcome {
    var url := Strip(urlInput);
    if url == "" then Exit(1)
    else
      var email := Lower(Strip(emailInput));
      if email == "" then Exit(1)
      else if Lower(Strip(answer)) !in Yes then Exit(0)
      else Promote(RewritePostgres(url), email)
  }

  /** The script promotes exactly when both texts have content and the
      answer is one of the four yes words. */
  lemma RunCases(urlInput: string, emailInput: string, answer: string)
    ensures Run(urlInput, emailInput, answer).Promote? <==>
      Strip(urlInput) != "" && Strip(emailInput) != "" && Lower(Strip(answer)) in Yes
    ensures Run(urlInput, emailInput, answer).Exit? ==>
      Run(urlInput, emailInput, answer).status == (if Strip(urlInput) == "" || Strip(emailInput) == "" then 1 else 0)
  {
  }

  /** An answer with spaces around and capitals still confirms. */
  lemma SpacedCapitalsConfirm(url: string, email: string)
    requires Strip(url) != "" && Strip(email) != ""
    ensures Run(url, email, " SIM ").Promote?
  {
    StripSpacedSim();
    LowerSim();
    RunCases(url, email, " SIM ");
  }

  lemma StripSpacedSim()
    ensures Strip(" SIM ") == "SIM"
  {
    TrimStartSim();
    TrimEndSim();
  }

  lemma TrimStartSim()
    ensures TrimStart(" SIM ") == "SIM "
  {
    var rest: string := "SIM ";
    assert " SIM " == [' '] + rest;
    TrimStartSpace(' ', rest);
  }

  lemma TrimEndSim()
    ensures TrimEnd("SIM ") == "SIM"
  {
    var sim: string := "SIM";
    assert "SIM " == sim + [' '];
    TrimEndSpace(sim, ' ');
  }

  lemma LowerSim()
    ensures Lower("SIM") == "sim"
  {
    var r := Lower("SIM");
    assert r[0] == 's' && r[1] == 'i' && r[2] == 'm';
  }

  /** `não` cancels with status 0. */
  lemma NaoCancels(url: string, email: string)
    requires Strip(url) != "" && Strip(email) != ""
    ensures Run(url, email, "não") == Exit(0)
  {
    var nao: string := "não";
    assert !IsPySpace(nao[0]) && !IsPySpace(nao[2]);
    assert Strip(nao) == nao;
    var r := Lower(nao);
    assert r[0] == 'n' && r[1] == 'ã' && r[2] == 'o';
    assert r !in Yes;
  }

  /** `UPDATE users SET role = 'admin' WHERE email = :email`, with the
      number of rows it changed. */
  function PromoteByEmail(users: seq<User>, email: string): (r: (seq<User>, nat))
    ensures |r.0| == |users|
  {
    if users == [] then ([], 0)
    else
      var rest := PromoteByEmail(users[1..], email);
      if users[0].email == email then ([users[0].(role := "admin")] + rest.0, rest.1 + 1)
      else ([users[0]] + rest.0, rest.1)
  }

  function HasEmail(email: string): User -> bool {
    (u: User) => u.email == email
  }

  /** Every account with that exact address becomes an admin, nothing else
      changes, and the row count is the number of such accounts. */
  lemma {:induction false} PromoteEffect(users: seq<User>, email: string)
    ensures var (after, count) := PromoteByEmail(users, email);
      count == |Keep(users, HasEmail(email))|
      && forall i :: 0 <= i < |users| ==>
           after[i] == (if users[i].email == email then users[i].(role := "admin") else users[i])
    decreases |users|
  {
    if users != [] {
      PromoteEffect(users[1..], email);
    }
  }

  /** Lower-casing never produces an ASCII capital. */
  lemma LowerHasNoCapitals(s: string)
    ensures forall i :: 0 <= i < |Lower(s)| ==> !('A' <= Lower(s)[i] <= 'Z')
  {
  }

  /** The address is lower-cased but compared exactly, and registration keeps
      the address as typed: an account registered with a capital letter is
      never promoted by this script. */
  lemma CapitalisedAccountNotPromoted(users: seq<User>, urlInput: string, emailInput: string, answer: string, j: int, k: int)
    requires Run(urlInput, emailInput, answer).Promote?
    requires 0 <= j < |users| && 0 <= k < |users[j].email| && 'A' <= users[j].email[k] <= 'Z'
    ensures PromoteByEmail(users, Run(urlInput, emailInput, answer).email).0[j] == users[j]
  {
    var email := Run(urlInput, emailInput, answer).email;
    LowerHasNoCapitals(Strip(emailInput));
    assert k >= |email| || email[k] != users[j].email[k];
    PromoteEffect(users, email);
  }
}
