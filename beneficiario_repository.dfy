/** The borrower query: `findByNomeContainingIgnoreCase`, which the persistence layer runs
    as `upper(nome) LIKE upper('%' || fragment || '%')` with the fragment's wildcards
    escaped, i.e. a case-insensitive substring test, over the borrower table given as a
    sequence of rows in storage order. */
module BeneficiarioRepository {
  import opened Common
  import opened Query
  import opened Model

  /** Upper case, on the ASCII letters. */
  function UpperChar(c: char): char {
    if 'a' <= c <= 'z' then (c as int - 32) as char else c
  }

  /** Lower case, on the ASCII letters. */
  function LowerChar(c: char): char {
    if 'A' <= c <= 'Z' then (c as int + 32) as char else c
  }

  function Upper(s: string): (r: string)
    ensures |r| == |s| && forall i | 0 <= i < |s| :: r[i] == UpperChar(s[i])
  {
    seq(|s|, i requires 0 <= i < |s| => UpperChar(s[i]))
  }

  function Lower(s: string): (r: string)
    ensures |r| == |s| && forall i | 0 <= i < |s| :: r[i] == LowerChar(s[i])
  {
    seq(|s|, i requires 0 <= i < |s| => LowerChar(s[i]))
  }

  /** `f` occurs in `s` starting at position `i`. */
  predicate OccursAt(s: string, f: string, i: int) {
    0 <= i <= |s| - |f| && s[i..i + |f|] == f
  }

  /** `f` occurs in `s` at some position. */
  predicate Contains(s: string, f: string) {
    exists i | 0 <= i <= |s| - |f| :: OccursAt(s, f, i)
  }

  /** A text without the first character of `f` does not contain `f`. */
  lemma AbsentFirstChar(s: string, f: string)
    requires |f| > 0 && forall i | 0 <= i < |s| :: s[i] != f[0]
    ensures !Contains(s, f)
  {
    forall i | 0 <= i <= |s| - |f|
      ensures !OccursAt(s, f, i)
    {
      assert s[i..i + |f|][0] == s[i];
    }
  }

  /** `nome` contains `fragment`, letter case aside. */
  predicate ContainsIgnoreCase(nome: string, fragment: string) {
    Contains(Upper(nome), Upper(fragment))
  }

  function NameMatches(fragment: string): Beneficiario -> bool {
    (b: Beneficiario) => ContainsIgnoreCase(b.nome, fragment)
  }

  /** The borrowers whose name contains `nome` ignoring case, in storage order. */
  function FindByNomeContainingIgnoreCase(rows: seq<Beneficiario>, nome: string): (r: seq<Beneficiario>)
    ensures forall b :: b in r <==> b in rows && ContainsIgnoreCase(b.nome, nome)
    ensures |r| <= |rows|
  {
    Where(rows, NameMatches(nome))
  }

  lemma UpperOfLower(s: string)
    ensures Upper(Lower(s)) == Upper(s)
    ensures Upper(Upper(s)) == Upper(s)
  {
  }

  /** The fragment's letter case does not matter: its upper- and lower-case spellings
      find the same borrowers in the same order. */
  lemma FindIgnoresFragmentCase(rows: seq<Beneficiario>, nome: string)
    ensures FindByNomeContainingIgnoreCase(rows, Lower(nome)) == FindByNomeContainingIgnoreCase(rows, nome)
    ensures FindByNomeContainingIgnoreCase(rows, Upper(nome)) == FindByNomeContainingIgnoreCase(rows, nome)
  {
    UpperOfLower(nome);
    WhereSame(rows, NameMatches(Lower(nome)), NameMatches(nome));
    WhereSame(rows, NameMatches(Upper(nome)), NameMatches(nome));
  }

  /** The empty fragment matches every borrower. */
  lemma FindEmptyFragment(rows: seq<Beneficiario>)
    ensures FindByNomeContainingIgnoreCase(rows, "") == rows
  {
    forall i | 0 <= i < |rows|
      ensures NameMatches("")(rows[i])
    {
      assert Upper("") == [];
      assert OccursAt(Upper(rows[i].nome), Upper(""), 0);
    }
    WhereAll(rows, NameMatches(""));
  }

  /** Storing more borrowers only appends to an earlier result: matches come back in
      storage order. */
  lemma FindAppend(a: seq<Beneficiario>, b: seq<Beneficiario>, nome: string)
    ensures FindByNomeContainingIgnoreCase(a + b, nome) == FindByNomeContainingIgnoreCase(a, nome) + FindByNomeContainingIgnoreCase(b, nome)
  {
    WhereAppend(a, b, NameMatches(nome));
  }

  // ---------------------------------------------------------------------------
  // The test fixtures
  // ---------------------------------------------------------------------------

  function Fixture(id: int, nome: string, telefone: string, observacao: string): Beneficiario {
    Beneficiario(id, nome, telefone, None, None, Some(observacao), None)
  }

  /** The four fixture borrowers, in the order they are saved. */
  function FixtureBorrowers(): seq<Beneficiario> {
    [ Fixture(1, "Erick Marques", "081988888888", "Observação de teste"),
      Fixture(2, "EDSON MARQUES", "081955554222", "OBS TESTE"),
      Fixture(3, "CAUA MARQUES", "081955554333", "OBS TESTE"),
      Fixture(4, "LAURA ANDRADE", "081955554444", "OBS TESTE") ]
  }

  /** The fixture names in upper case. */
  lemma FixtureNamesUpper()
    ensures Upper(FixtureBorrowers()[0].nome) == "ERICK MARQUES"
    ensures Upper(FixtureBorrowers()[1].nome) == "EDSON MARQUES"
    ensures Upper(FixtureBorrowers()[2].nome) == "CAUA MARQUES"
    ensures Upper(FixtureBorrowers()[3].nome) == "LAURA ANDRADE"
  {
  }

  lemma MarquesMatches()
    ensures NameMatches("MARQUES")(FixtureBorrowers()[0])
    ensures NameMatches("MARQUES")(FixtureBorrowers()[1])
    ensures NameMatches("MARQUES")(FixtureBorrowers()[2])
    ensures !NameMatches("MARQUES")(FixtureBorrowers()[3])
  {
    FixtureNamesUpper();
    assert Upper("MARQUES") == "MARQUES";
    assert OccursAt("ERICK MARQUES", "MARQUES", 6);
    assert OccursAt("EDSON MARQUES", "MARQUES", 6);
    assert OccursAt("CAUA MARQUES", "MARQUES", 5);
    AbsentFirstChar("LAURA ANDRADE", "MARQUES");
  }

  lemma LauraMatches()
    ensures !NameMatches("LAURA")(FixtureBorrowers()[0])
    ensures !NameMatches("LAURA")(FixtureBorrowers()[1])
    ensures !NameMatches("LAURA")(FixtureBorrowers()[2])
    ensures NameMatches("LAURA")(FixtureBorrowers()[3])
  {
    FixtureNamesUpper();
    assert Upper("LAURA") == "LAURA";
    assert OccursAt("LAURA ANDRADE", "LAURA", 0);
    AbsentFirstChar("ERICK MARQUES", "LAURA");
    AbsentFirstChar("EDSON MARQUES", "LAURA");
    AbsentFirstChar("CAUA MARQUES", "LAURA");
  }

  /** "MARQUES" finds the first three borrowers in storage order. */
  lemma FixtureSearchMarques()
    ensures FindByNomeContainingIgnoreCase(FixtureBorrowers(), "MARQUES") == FixtureBorrowers()[..3]
  {
    var rows := FixtureBorrowers();
    var p := NameMatches("MARQUES");
    MarquesMatches();
    assert rows == rows[..3] + [rows[3]];
    WhereAppend(rows[..3], [rows[3]], p);
    WhereAll(rows[..3], p);
    assert Where([rows[3]], p) == [] by {
      assert [rows[3]][1..] == [];
    }
  }

  /** The lower-case "marques" finds the same three. */
  lemma FixtureSearchMarquesLowerCase()
    ensures FindByNomeContainingIgnoreCase(FixtureBorrowers(), "marques") == FixtureBorrowers()[..3]
  {
    UpperMarques();
    FindIgnoresFragmentCase(FixtureBorrowers(), "marques");
    FixtureSearchMarques();
  }

  lemma UpperMarques()
    ensures Upper("marques") == "MARQUES"
  {
  }

  /** "LAURA" finds only the fourth borrower. */
  lemma FixtureSearchLaura()
    ensures FindByNomeContainingIgnoreCase(FixtureBorrowers(), "LAURA") == [FixtureBorrowers()[3]]
  {
    var rows := FixtureBorrowers();
    var p := NameMatches("LAURA");
    LauraMatches();
    assert rows == rows[..3] + [rows[3]];
    WhereAppend(rows[..3], [rows[3]], p);
    WhereAll([rows[3]], p);
  }
}
