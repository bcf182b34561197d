/** The two field normalisers of the schedule extractor (`normalizeTurno` and
    `normalizeTipo`): a shift period or worker type written freely in the sheet
    becomes one canonical word, or the trimmed text when it is not recognised.

    Lower-casing is modelled on ASCII letters. That is exact here: the scripts
    only look at the first lower-cased letter, and no other code point
    lower-cases to a string starting with `d`, `n` or `f`. */
module Normalize {
  import opened Wrappers
  import opened Text

  const Dia := "Dia"
  const Noite := "Noite"
  const Fichado := "Fichado"
  const Diarista := "Diarista"

  /** The first letter of the trimmed, lower-cased value, if any. */
  function Initial(value: string): (r: Option<char>)
    ensures r.None? <==> Trim(value) == []
    ensures r.Some? ==> r.value == LowerChar(Trim(value)[0])
  {
    var normalized := ToLower(Trim(value));
    if normalized == [] then None else Some(normalized[0])
  }

  /** `normalizeTurno`: `d...` is the day shift, `n...` the night shift, empty
      stays empty, anything else is kept trimmed with its case. */
  function NormalizeTurno(value: string): (r: string)
    ensures r == [] <==> Trim(value) == []
    ensures IsTrimmed(r)
  {
    var normalized := ToLower(Trim(value));
    if normalized == [] then []
    else if normalized[0] == 'd' then Dia
    else if normalized[0] == 'n' then Noite
    else Trim(value)
  }

  /** `normalizeTipo`: `f...` is a salaried worker, `d...` a daily worker,
      empty stays empty, anything else is kept trimmed with its case. */
  function NormalizeTipo(value: string): (r: string)
    ensures r == [] <==> Trim(value) == []
    ensures IsTrimmed(r)
  {
    var normalized := ToLower(Trim(value));
    if normalized == [] then []
    else if normalized[0] == 'f' then Fichado
    else if normalized[0] == 'd' then Diarista
    else Trim(value)
  }

  /** A shift value that `normalizeTurno` leaves as it is. */
  predicate IsTurnoForm(r: string) {
    r == [] || r == Dia || r == Noite
    || (IsTrimmed(r) && LowerChar(r[0]) != 'd' && LowerChar(r[0]) != 'n')
  }

  /** A worker-type value that `normalizeTipo` leaves as it is. */
  predicate IsTipoForm(r: string) {
    r == [] || r == Fichado || r == Diarista
    || (IsTrimmed(r) && LowerChar(r[0]) != 'f' && LowerChar(r[0]) != 'd')
  }

  /** What `normalizeTurno` returns, by the first letter of the trimmed input. */
  lemma NormalizeTurnoCases(value: string)
    ensures Initial(value) == Some('d') ==> NormalizeTurno(value) == Dia
    ensures Initial(value) == Some('n') ==> NormalizeTurno(value) == Noite
    ensures Initial(value).Some? && Initial(value).value !in {'d', 'n'}
            ==> NormalizeTurno(value) == Trim(value)
  {
  }

  /** What `normalizeTipo` returns, by the first letter of the trimmed input. */
  lemma NormalizeTipoCases(value: string)
    ensures Initial(value) == Some('f') ==> NormalizeTipo(value) == Fichado
    ensures Initial(value) == Some('d') ==> NormalizeTipo(value) == Diarista
    ensures Initial(value).Some? && Initial(value).value !in {'f', 'd'}
            ==> NormalizeTipo(value) == Trim(value)
  {
  }

  /** A word that starts with an upper-case and ends with a lower-case ASCII letter is its own trim. */
  lemma LetterBoundedTrimmed(w: string)
    requires w != [] && 'A' <= w[0] <= 'Z' && 'a' <= w[|w| - 1] <= 'z'
    ensures Trim(w) == w
  {
    TrimFixpoint(w);
  }

  /** A canonical word is its own trim. */
  lemma CanonicalWord(w: string)
    requires w in {Dia, Noite, Fichado, Diarista}
    ensures Trim(w) == w
  {
    LetterBoundedTrimmed(w);
  }

  /** Exactly the values of canonical form are the ones `normalizeTurno` fixes. */
  lemma {:induction false} TurnoFormIsFixpoint(r: string)
    ensures NormalizeTurno(r) == r <==> IsTurnoForm(r)
  {
    TrimFixpoint(r);
    if r == Dia || r == Noite {
      CanonicalWord(r);
    } else if r != [] && IsTrimmed(r) {
      assert ToLower(Trim(r))[0] == LowerChar(r[0]);
    }
  }

  /** Exactly the values of canonical form are the ones `normalizeTipo` fixes. */
  lemma {:induction false} TipoFormIsFixpoint(r: string)
    ensures NormalizeTipo(r) == r <==> IsTipoForm(r)
  {
    TrimFixpoint(r);
    if r == Fichado || r == Diarista {
      CanonicalWord(r);
    } else if r != [] && IsTrimmed(r) {
      assert ToLower(Trim(r))[0] == LowerChar(r[0]);
    }
  }

  /** `normalizeTurno` always lands in canonical form, so applying it twice
      changes nothing. */
  lemma {:induction false} NormalizeTurnoIdempotent(value: string)
    ensures IsTurnoForm(NormalizeTurno(value))
    ensures NormalizeTurno(NormalizeTurno(value)) == NormalizeTurno(value)
  {
    var t := Trim(value);
    if t != [] {
      assert ToLower(t)[0] == LowerChar(t[0]);
    }
    TurnoFormIsFixpoint(NormalizeTurno(value));
  }

  /** `normalizeTipo` always lands in canonical form, so applying it twice
      changes nothing. */
  lemma {:induction false} NormalizeTipoIdempotent(value: string)
    ensures IsTipoForm(NormalizeTipo(value))
    ensures NormalizeTipo(NormalizeTipo(value)) == NormalizeTipo(value)
  {
    var t := Trim(value);
    if t != [] {
      assert ToLower(t)[0] == LowerChar(t[0]);
    }
    TipoFormIsFixpoint(NormalizeTipo(value));
  }

  /** "diurno" is the day shift. */
  lemma TurnoExampleDiurno()
    ensures NormalizeTurno("diurno") == Dia
  {
    var w := "diurno";
    TrimFixpoint(w);
    assert ToLower(Trim(w))[0] == 'd';
  }

  /** "Noite " is the night shift: the trailing space is trimmed first. */
  lemma TurnoExampleNoite()
    ensures NormalizeTurno("Noite ") == Noite
  {
    var w := "Noite";
    TrimFixpoint(w);
    TrimTrailingSpace(w);
    assert w + " " == "Noite ";
    assert ToLower(Trim(w + " "))[0] == 'n';
  }

  /** An empty cell stays empty. */
  lemma TurnoExampleEmpty()
    ensures NormalizeTurno("") == ""
  {
    assert Trim("") == "";
  }

  /** "Integral" is not recognised and passes through unchanged. */
  lemma TurnoExampleIntegral()
    ensures NormalizeTurno("Integral") == "Integral"
  {
    var w := "Integral";
    TrimFixpoint(w);
    assert ToLower(Trim(w))[0] == 'i';
  }

  /** "Fichado" is a salaried worker. */
  lemma TipoExampleFichado()
    ensures NormalizeTipo("Fichado") == Fichado
  {
    var w := "Fichado";
    TrimFixpoint(w);
    assert ToLower(Trim(w))[0] == 'f';
  }

  /** "diarista" is a daily worker and comes out capitalised. */
  lemma TipoExampleDiarista()
    ensures NormalizeTipo("diarista") == Diarista
  {
    var w := "diarista";
    TrimFixpoint(w);
    assert ToLower(Trim(w))[0] == 'd';
  }

  /** "Terceiro" is not recognised and passes through unchanged. */
  lemma TipoExampleTerceiro()
    ensures NormalizeTipo("Terceiro") == "Terceiro"
  {
    var w := "Terceiro";
    TrimFixpoint(w);
    assert ToLower(Trim(w))[0] == 't';
  }
}
