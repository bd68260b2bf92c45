/** The registration screen's logic: the password-strength meter and the form
    validator that runs before the register request is sent. */
module RegisterScreen {

  /** The five things the meter rewards. */
  datatype Criterion = MinLength8 | MinLength12 | MixedCase | HasDigit | HasSymbol

  /** The criteria in the order the meter checks them. */
  const AllCriteria: seq<Criterion> := [MinLength8, MinLength12, MixedCase, HasDigit, HasSymbol]

  predicate IsLower(c: char) { 'a' <= c <= 'z' }
  predicate IsUpper(c: char) { 'A' <= c <= 'Z' }
  predicate IsDigit(c: char) { '0' <= c <= '9' }

  /** `/[a-z]/.test(s)`. */
  predicate ContainsLower(s: string) { exists i :: 0 <= i < |s| && IsLower(s[i]) }
  /** `/[A-Z]/.test(s)`. */
  predicate ContainsUpper(s: string) { exists i :: 0 <= i < |s| && IsUpper(s[i]) }
  /** `/\d/.test(s)`. */
  predicate ContainsDigit(s: string) { exists i :: 0 <= i < |s| && IsDigit(s[i]) }
  /** `/[^a-zA-Z\d]/.test(s)`. */
  predicate ContainsSymbol(s: string)
  {
    exists i :: 0 <= i < |s| && !IsLower(s[i]) && !IsUpper(s[i]) && !IsDigit(s[i])
  }

  predicate Meets(password: string, c: Criterion)
  {
    match c
    case MinLength8 => |password| >= 8
    case MinLength12 => |password| >= 12
    case MixedCase => ContainsLower(password) && ContainsUpper(password)
    case HasDigit => ContainsDigit(password)
    case HasSymbol => ContainsSymbol(password)
  }

  /** How many of `criteria` the password meets; the meter's score is this count
      over all five. */
  function CountMet(password: string, criteria: seq<Criterion>): (n: nat)
    ensures n <= |criteria|
  {
    if criteria == [] then 0
    else (if Meets(password, criteria[0]) then 1 else 0) + CountMet(password, criteria[1..])
  }

  /** The meter's bar width and `label` text (the colour is presentation and left out). */
  datatype Strength = Strength(strength: nat, labelText: string)

  /** Score 0..1 is weak, 2..3 medium, 4..5 strong. */
  function StrengthFor(score: nat): Strength
  {
    if score <= 1 then Strength(20, "Fraca")
    else if score <= 3 then Strength(50, "Média")
    else Strength(100, "Forte")
  }

  /** Counting over a concatenation adds the counts. */
  lemma {:induction false} CountMetAppend(password: string, a: seq<Criterion>, b: seq<Criterion>)
    ensures CountMet(password, a + b) == CountMet(password, a) + CountMet(password, b)
  {
    if a != [] {
      assert (a + b)[1..] == a[1..] + b;
      CountMetAppend(password, a[1..], b);
    } else {
      assert a + b == b;
    }
  }

  /** The score lies in 0..5; a password of twelve or more characters meets both
      length criteria and so is never weak. */
  lemma ScoreBounds(password: string)
    ensures CountMet(password, AllCriteria) <= 5
    ensures |password| >= 12 ==>
      && CountMet(password, AllCriteria) >= 2
      && StrengthFor(CountMet(password, AllCriteria)).labelText != "Fraca"
  {
    CountMetAppend(password, AllCriteria[..2], AllCriteria[2..]);
    assert AllCriteria[..2] + AllCriteria[2..] == AllCriteria;
  }

  /** `getPasswordStrength`: a running `strength` counter, one increment per
      criterion met, then mapped to the bar and label. */
  method GetPasswordStrength(password: string) returns (r: Strength)
    ensures password == [] ==> r == Strength(0, [])
    ensures password != [] ==> r == StrengthFor(CountMet(password, AllCriteria))
    ensures r.strength == 0 || r.strength == 20 || r.strength == 50 || r.strength == 100
  {
    if password == [] {
      return Strength(0, []);
    }
    var strength: nat := 0;
    // `rest` holds the criteria not yet checked: strength + CountMet(rest) stays the score.
    ghost var rest := AllCriteria;
    if |password| >= 8 {
      strength := strength + 1;
    }
    rest := rest[1..];
    assert strength + CountMet(password, rest) == CountMet(password, AllCriteria);
    if |password| >= 12 {
      strength := strength + 1;
    }
    rest := rest[1..];
    assert strength + CountMet(password, rest) == CountMet(password, AllCriteria);
    if ContainsLower(password) && ContainsUpper(password) {
      strength := strength + 1;
    }
    rest := rest[1..];
    assert strength + CountMet(password, rest) == CountMet(password, AllCriteria);
    if ContainsDigit(password) {
      strength := strength + 1;
    }
    rest := rest[1..];
    assert strength + CountMet(password, rest) == CountMet(password, AllCriteria);
    if ContainsSymbol(password) {
      strength := strength + 1;
    }
    rest := rest[1..];
    assert rest == [];
    assert strength == CountMet(password, AllCriteria);
    if strength <= 1 {
      return Strength(20, "Fraca");
    }
    if strength <= 3 {
      return Strength(50, "Média");
    }
    r := Strength(100, "Forte");
  }

  /** The outcome of `validateInputs`: accepted, or the alert it raises instead. */
  datatype Validation = Accepted | Rejected(title: string, message: string)

  /** `validateInputs`: empty fields first, then the six-character minimum, then
      the confirmation. */
  function ValidateInputs(username: string, email: string, password: string, confirmPassword: string)
    : (r: Validation)
    ensures r.Accepted? <==>
      && username != [] && email != [] && password != [] && confirmPassword != []
      && |password| >= 6 && password == confirmPassword
    ensures (username == [] || email == [] || password == [] || confirmPassword == []) ==>
      r == Rejected("Atenção", "Preencha todos os campos.")
  {
    if username == [] || email == [] || password == [] || confirmPassword == [] then
      Rejected("Atenção", "Preencha todos os campos.")
    else if |password| < 6 then
      Rejected("Senha Fraca", "A senha deve ter pelo menos 6 caracteres.")
    else if password != confirmPassword then
      Rejected("Erro", "As senhas não coincidem.")
    else
      Accepted
  }

  /** Which alert a filled-in form raises: the length check comes before the
      confirmation check. */
  lemma ValidationOrder(username: string, email: string, password: string, confirmPassword: string)
    requires username != [] && email != [] && password != [] && confirmPassword != []
    ensures |password| < 6 ==>
      ValidateInputs(username, email, password, confirmPassword)
        == Rejected("Senha Fraca", "A senha deve ter pelo menos 6 caracteres.")
    ensures |password| >= 6 && password != confirmPassword ==>
      ValidateInputs(username, email, password, confirmPassword)
        == Rejected("Erro", "As senhas não coincidem.")
  {
  }
}
