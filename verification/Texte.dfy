/** The pieces of Go's `strings` and `strconv` packages the agent relies on. */
module Texte {

  /** unicode.IsSpace */
  predicate EstBlanc(c: char) {
    c in {'\t', '\n', '\U{000B}', '\U{000C}', '\r', ' ', '\U{0085}', '\U{00A0}', '\U{1680}',
          '\U{2028}', '\U{2029}', '\U{202F}', '\U{205F}', '\U{3000}'}
    || '\U{2000}' <= c <= '\U{200A}'
  }

  function TrimGauche(s: string): (r: string)
    ensures r == "" || !EstBlanc(r[0])
    ensures |r| <= |s|
  {
    if s != "" && EstBlanc(s[0]) then TrimGauche(s[1..]) else s
  }

  function TrimDroite(s: string): (r: string)
    ensures r <= s && (r == "" || !EstBlanc(r[|r| - 1]))
  {
    if s != "" && EstBlanc(s[|s| - 1]) then TrimDroite(s[..|s| - 1]) else s
  }

  /** strings.TrimSpace */
  function TrimSpace(s: string): string { TrimDroite(TrimGauche(s)) }

  predicate ToutBlanc(s: string) { forall i | 0 <= i < |s| :: EstBlanc(s[i]) }

  /** No blank at either end. */
  predicate Nette(s: string) { s == "" || (!EstBlanc(s[0]) && !EstBlanc(s[|s| - 1])) }

  lemma TrimNette(s: string)
    requires Nette(s)
    ensures TrimSpace(s) == s
  {
  }

  lemma {:induction false} TrimGaucheBlancs(b: string, s: string)
    requires ToutBlanc(b)
    ensures TrimGauche(b + s) == TrimGauche(s)
  {
    if b == "" {
      assert b + s == s;
    } else {
      assert (b + s)[0] == b[0] && (b + s)[1..] == b[1..] + s;
      TrimGaucheBlancs(b[1..], s);
    }
  }

  lemma {:induction false} TrimGaucheDebut(s: string) returns (b: nat)
    ensures b <= |s| && TrimGauche(s) == s[b..] && forall i | 0 <= i < b :: EstBlanc(s[i])
  {
    b := 0;
    if s != "" && EstBlanc(s[0]) {
      var n := TrimGaucheDebut(s[1..]);
      b := n + 1;
      assert forall i | 0 < i < b :: s[i] == s[1..][i - 1];
    }
  }

  lemma {:induction false} TrimDroiteBlancs(s: string, c: string)
    requires ToutBlanc(c)
    ensures TrimDroite(s + c) == TrimDroite(s)
  {
    if c == "" {
      assert s + c == s;
    } else {
      var n := |c| - 1;
      assert (s + c)[|s + c| - 1] == c[n] && (s + c)[..|s + c| - 1] == s + c[..n];
      TrimDroiteBlancs(s, c[..n]);
    }
  }

  /** A trimmed text between blanks. */
  lemma TrimEntoure(b: string, w: string, c: string)
    requires ToutBlanc(b) && ToutBlanc(c) && Nette(w)
    ensures TrimSpace(b + w + c) == w
  {
    assert b + w + c == b + (w + c);
    TrimGaucheBlancs(b, w + c);
    if w == "" {
      assert w + c == c && c + "" == c;
      TrimGaucheBlancs(c, "");
    } else {
      assert (w + c)[0] == w[0];
      TrimDroiteBlancs(w, c);
    }
  }

  lemma {:induction false} TrimToutBlanc(s: string)
    ensures TrimSpace(s) == "" <==> ToutBlanc(s)
  {
    if ToutBlanc(s) {
      TrimGaucheBlancs(s, "");
      assert s + "" == s;
    } else {
      TrimGarde(s);
    }
  }

  lemma {:induction false} TrimGarde(s: string)
    requires !ToutBlanc(s)
    ensures TrimSpace(s) != ""
  {
    if EstBlanc(s[0]) {
      assert s == [s[0]] + s[1..];
      TrimGarde(s[1..]);
    } else {
      TrimDroiteGarde(s);
    }
  }

  lemma {:induction false} TrimDroiteGarde(s: string)
    requires s != "" && !EstBlanc(s[0])
    ensures TrimDroite(s) != ""
  {
    if EstBlanc(s[|s| - 1]) { TrimDroiteGarde(s[..|s| - 1]); }
  }

  /** ASCII only. */
  function Minuscule(c: char): char {
    if 'A' <= c <= 'Z' then (c as int + 32) as char else c
  }

  function Minuscules(s: string): (r: string)
    ensures |r| == |s| && forall i | 0 <= i < |s| :: r[i] == Minuscule(s[i])
  {
    seq(|s|, i requires 0 <= i < |s| => Minuscule(s[i]))
  }

  // --- lines ------------------------------------------------------------------------

  predicate UneLigne(s: string) { '\n' !in s }

  /** strings.Split(s, "\n") */
  function Split(s: string): (l: seq<string>)
    ensures |l| >= 1
  {
    if s == "" then [""]
    else
      var r := Split(s[1..]);
      if s[0] == '\n' then [""] + r else [[s[0]] + r[0]] + r[1..]
  }

  /** strings.Join(l, "\n") */
  function Join(l: seq<string>): string {
    if l == [] then "" else if |l| == 1 then l[0] else l[0] + "\n" + Join(l[1..])
  }

  lemma {:induction false} JoinSplit(s: string)
    ensures Join(Split(s)) == s
    ensures forall i | 0 <= i < |Split(s)| :: UneLigne(Split(s)[i])
  {
    if s != "" {
      var r := Split(s[1..]);
      JoinSplit(s[1..]);
      if s[0] == '\n' {
        assert Split(s)[1..] == r;
      } else if |r| > 1 {
        assert Split(s)[1..] == r[1..];
      }
    }
  }

  lemma SplitSuite(c: char, x: string, y: string, t: seq<string>)
    requires Split(y) == Split(x) + t
    ensures Split([c] + y) == Split([c] + x) + t
  {
    SplitCaractere(c, x);
    SplitCaractere(c, y);
    hide Split;
    var r := Split(x);
    if c == '\n' {
      assert [""] + (r + t) == [""] + r + t;
    } else {
      assert (r + t)[0] == r[0] && (r + t)[1..] == r[1..] + t;
      assert [[c] + r[0]] + (r[1..] + t) == [[c] + r[0]] + r[1..] + t;
    }
  }

  lemma SplitCaractere(c: char, x: string)
    ensures var r := Split(x);
            Split([c] + x) == if c == '\n' then [""] + r else [[c] + r[0]] + r[1..]
  {
    assert ([c] + x)[1..] == x;
  }

  /** A text cut at one of its line breaks. */
  lemma {:induction false} SplitCoupe(a: string, b: string)
    ensures Split(a + "\n" + b) == Split(a) + Split(b)
  {
    if a == "" {
      assert a + "\n" + b == "\n" + b && ("\n" + b)[1..] == b;
    } else {
      SplitCoupe(a[1..], b);
      assert (a + "\n" + b)[1..] == a[1..] + "\n" + b;
      SplitSuite(a[0], a[1..], a[1..] + "\n" + b, Split(b));
      assert [a[0]] + a[1..] == a && [a[0]] + (a[1..] + "\n" + b) == a + "\n" + b;
    }
  }

  lemma {:induction false} SplitUneLigne(a: string)
    requires UneLigne(a)
    ensures Split(a) == [a]
  {
    if a != "" {
      SplitUneLigne(a[1..]);
      assert a == [a[0]] + a[1..];
    }
  }

  lemma {:induction false} SplitJoin(l: seq<string>)
    requires |l| >= 1 && forall i | 0 <= i < |l| :: UneLigne(l[i])
    ensures Split(Join(l)) == l
  {
    SplitUneLigne(l[0]);
    if |l| > 1 {
      SplitJoin(l[1..]);
      SplitCoupe(l[0], Join(l[1..]));
    }
  }

  /** lineAt */
  function LigneA(l: seq<string>, i: nat): string { if i < |l| then l[i] else "" }

  // --- strconv ------------------------------------------------------------------------

  datatype Entier = Illisible | Lu(n: int)

  const MAX_INT := 0x7FFF_FFFF_FFFF_FFFF

  predicate EstChiffre(c: char) { '0' <= c <= '9' }

  /** Reads a run of digits, most significant first. */
  function Chiffres(s: string): Entier {
    if s == "" then Lu(0)
    else if !EstChiffre(s[|s| - 1]) then Illisible
    else
      match Chiffres(s[..|s| - 1])
      case Illisible => Illisible
      case Lu(n) => Lu(10 * n + (s[|s| - 1] as int - '0' as int))
  }

  /** strconv.Atoi: an optional sign, at least one digit, within 64 bits. */
  function Atoi(s: string): Entier {
    var signe := s != "" && s[0] in {'+', '-'};
    var c := if signe then s[1..] else s;
    if c == "" then Illisible
    else
      match Chiffres(c)
      case Illisible => Illisible
      case Lu(n) =>
        if signe && s[0] == '-' then (if n <= MAX_INT + 1 then Lu(-n) else Illisible)
        else if n <= MAX_INT then Lu(n) else Illisible
  }

  /** The run of digits that opens `s`. */
  function ChiffresEnTete(s: string): (d: string)
    ensures d <= s && forall i | 0 <= i < |d| :: EstChiffre(d[i])
    ensures |d| < |s| ==> !EstChiffre(s[|d|])
  {
    if s == "" || !EstChiffre(s[0]) then "" else [s[0]] + ChiffresEnTete(s[1..])
  }

  const MAX_UINT := 0xFFFF_FFFF_FFFF_FFFF

  /** What strconv.Atoi returns beside its error: 0 on a bad spelling, the nearest bound on a number out of
      range, be it followed by a bad character. */
  function AtoiBorne(s: string): (n: int)
    ensures Atoi(s).Lu? ==> n == Atoi(s).n
    ensures -MAX_INT - 1 <= n <= MAX_INT
  {
    var signe := s != "" && s[0] in {'+', '-'};
    var c := if signe then s[1..] else s;
    var d := ChiffresEnTete(c);
    var v: int := ChiffresLus(d);
    ToutChiffres(c);
    if d == "" || (|d| < |c| && v <= MAX_UINT) then 0
    else if signe && s[0] == '-' then (if v <= MAX_INT + 1 then -v else -MAX_INT - 1)
    else if v <= MAX_INT then v else MAX_INT
  }

  /** The value of a run of digits. */
  function ChiffresLus(d: string): (n: nat)
    requires forall i | 0 <= i < |d| :: EstChiffre(d[i])
    ensures Chiffres(d) == Lu(n)
  {
    if d == "" then 0
    else
      assert EstChiffre(d[|d| - 1]);
      10 * ChiffresLus(d[..|d| - 1]) + (d[|d| - 1] as int - '0' as int)
  }

  /** A text reads as a number only if it is a run of digits. */
  lemma {:induction false} ToutChiffres(c: string)
    ensures Chiffres(c).Lu? ==> ChiffresEnTete(c) == c
  {
    if Chiffres(c).Lu? {
      DesChiffres(c);
      assert forall i | 0 <= i < |c| :: EstChiffre(c[i]);
    }
  }

  lemma {:induction false} DesChiffres(c: string)
    requires Chiffres(c).Lu?
    ensures forall i | 0 <= i < |c| :: EstChiffre(c[i])
  {
    if c != "" { DesChiffres(c[..|c| - 1]); }
  }

  /** strconv.Itoa on a natural number */
  function Itoa(n: nat): (s: string)
    ensures s != "" && forall i | 0 <= i < |s| :: EstChiffre(s[i])
  {
    var d := [('0' as int + n % 10) as char];
    if n < 10 then d else Itoa(n / 10) + d
  }

  lemma {:induction false} ChiffresItoa(n: nat)
    ensures Chiffres(Itoa(n)) == Lu(n)
  {
    var s := Itoa(n);
    if n < 10 {
      assert s[..0] == "";
    } else {
      ChiffresItoa(n / 10);
      assert s[..|s| - 1] == Itoa(n / 10);
    }
  }

  lemma AtoiItoa(n: nat)
    requires n <= MAX_INT
    ensures Atoi(TrimSpace(Itoa(n))) == Lu(n) && UneLigne(Itoa(n))
  {
    var s := Itoa(n);
    assert EstChiffre(s[0]) && EstChiffre(s[|s| - 1]);
    TrimNette(s);
    ChiffresItoa(n);
  }
}
