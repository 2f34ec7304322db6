/**
 * The `Discipline` validators that turn the raw professor cell of an imported
 * timetable into (name, ufmg_id, responsibility) records and rewrite semesters
 * from "2023/2" to "2023.2". The back-end keeps two copies of this model class;
 * their validators behave identically and are modelled once here.
 */
module Departament {
  import opened Wrappers
  import opened Text

  datatype Professor = Professor(name: string, ufmgId: string, responsibility: string)

  /** The exception the validator raises: a list index past the last piece. */
  datatype ValidationError = IndexOutOfRange

  /** Some ",," occurs in `s`. */
  predicate HasCommaPair(s: string)
  {
    |s| >= 2 && ((s[0] == ',' && s[1] == ',') || HasCommaPair(s[1..]))
  }

  /** Some ",,," occurs in `s`. */
  predicate HasCommaTriple(s: string)
  {
    |s| >= 3 && ((s[0] == ',' && s[1] == ',' && s[2] == ',') || HasCommaTriple(s[1..]))
  }

  /**
   * `s.replace(",,", ",")`: a single left-to-right pass over non-overlapping
   * pairs. Every character other than a comma is kept, in order.
   */
  function CollapseCommaPairs(s: string): (r: string)
    ensures |r| <= |s|
    ensures RemoveChar(r, ',') == RemoveChar(s, ',')
    ensures r != [] && r[0] == ',' <==> s != [] && s[0] == ','
  {
    if |s| >= 2 && s[0] == ',' && s[1] == ',' then
      assert RemoveChar(s, ',') == RemoveChar(s[2..], ',') by {
        assert s[1..][1..] == s[2..];
      }
      [','] + CollapseCommaPairs(s[2..])
    else if s == [] then []
    else [s[0]] + CollapseCommaPairs(s[1..])
  }

  /** The pieces the validator splits the professor cell into. */
  function Pieces(value: string): seq<string>
  {
    Split(CollapseCommaPairs(ReplaceChar(value, '\n', ',')), ',')
  }

  /**
   * `parse_professor`: fewer than three pieces give one all-empty professor;
   * otherwise consecutive triples become professors, and a piece count that is
   * not a multiple of three runs past the end of the list.
   */
  method ParseProfessor(value: string) returns (r: Result<seq<Professor>, ValidationError>)
    ensures |Pieces(value)| < 3 ==> r == Ok([Professor("", "", "")])
    ensures |Pieces(value)| >= 3 && |Pieces(value)| % 3 != 0 ==> r == Err(IndexOutOfRange)
    ensures |Pieces(value)| >= 3 && |Pieces(value)| % 3 == 0 ==>
              && r.Ok?
              && |r.value| == |Pieces(value)| / 3
              && forall i :: 0 <= i < |r.value| ==>
                   r.value[i] == Professor(Pieces(value)[3 * i], Pieces(value)[3 * i + 1], Pieces(value)[3 * i + 2])
  {
    var professor := Pieces(value);
    if |professor| < 3 {
      return Ok([Professor("", "", "")]);
    }
    r := Triples(professor);
  }

  /** The stepping loop of `parse_professor`: one professor per triple of pieces, starting at 0. */
  method Triples(professor: seq<string>) returns (r: Result<seq<Professor>, ValidationError>)
    ensures |professor| % 3 != 0 ==> r == Err(IndexOutOfRange)
    ensures |professor| % 3 == 0 ==>
              && r.Ok?
              && |r.value| == |professor| / 3
              && forall i :: 0 <= i < |r.value| ==>
                   r.value[i] == Professor(professor[3 * i], professor[3 * i + 1], professor[3 * i + 2])
  {
    var professors: seq<Professor> := [];
    var i := 0;
    while i < |professor|
      invariant 0 <= i <= |professor| && i % 3 == 0
      invariant |professors| == i / 3
      invariant forall k :: 0 <= k < i / 3 ==>
                  professors[k] == Professor(professor[3 * k], professor[3 * k + 1], professor[3 * k + 2])
    {
      if i + 2 >= |professor| {
        return Err(IndexOutOfRange);
      }
      professors := professors + [Professor(professor[i], professor[i + 1], professor[i + 2])];
      i := i + 3;
    }
    return Ok(professors);
  }

  /** No piece contains a comma or a newline; pieces are not trimmed. */
  lemma PiecesHaveNoSeparators(value: string)
    ensures forall i :: 0 <= i < |Pieces(value)| ==> ',' !in Pieces(value)[i] && '\n' !in Pieces(value)[i]
  {
    var s := CollapseCommaPairs(ReplaceChar(value, '\n', ','));
    assert '\n' !in ReplaceChar(value, '\n', ',');
    assert '\n' !in RemoveChar(ReplaceChar(value, '\n', ','), ',');
    assert '\n' !in s by {
      assert '\n' !in RemoveChar(s, ',');
    }
    SplitKeepsAbsentChar(s, ',', '\n');
  }

  lemma {:induction false} SplitKeepsAbsentChar(s: string, sep: char, c: char)
    requires c !in s
    ensures forall i :: 0 <= i < |Split(s, sep)| ==> c !in Split(s, sep)[i]
  {
    if s != [] {
      SplitKeepsAbsentChar(s[1..], sep, c);
    }
  }

  /**
   * The collapse is one pass: its output still holds a ",," exactly when the
   * input held a ",,,". So ",,," becomes ",," and an empty piece survives.
   */
  lemma {:induction false} CollapseLeavesPairIffTriple(s: string)
    ensures HasCommaPair(CollapseCommaPairs(s)) <==> HasCommaTriple(s)
  {
    if |s| >= 2 && s[0] == ',' && s[1] == ',' {
      var t := s[2..];
      CollapseLeavesPairIffTriple(t);
      var r := CollapseCommaPairs(s);
      assert r == [','] + CollapseCommaPairs(t);
      assert r[1..] == CollapseCommaPairs(t);
      assert s[1..][1..] == t;
      if |s| >= 4 {
        assert s[1..][1..][1..] == t[1..];
      }
    } else if s != [] {
      var t := s[1..];
      CollapseLeavesPairIffTriple(t);
      var r := CollapseCommaPairs(s);
      assert r == [s[0]] + CollapseCommaPairs(t);
      assert r[1..] == CollapseCommaPairs(t);
    }
  }

  /** ",,," collapses to ",,", which splits into three pieces, two of them empty. */
  lemma TripleCommaSurvives()
    ensures CollapseCommaPairs(",,,") == ",,"
    ensures Pieces(",,,") == ["", "", ""]
  {
    assert ",,,"[2..] == ",";
    assert ReplaceChar(",,,", '\n', ',') == ",,,";
    assert Split(",,", ',') == ["", "", ""] by {
      assert ",,"[1..] == ",";
      assert Split(",", ',') == ["", ""] by {
        assert ","[1..] == "";
      }
    }
  }

  /**
   * A piece list of four: "a,b,c,d" meets the premise under which
   * `ParseProfessor` runs past the end on the second triple.
   */
  lemma FourPiecesRaise()
    ensures |Pieces("a,b,c,d")| == 4
    ensures |Pieces("a,b,c,d")| >= 3 && |Pieces("a,b,c,d")| % 3 != 0
  {
    var parts := ["a", "b", "c", "d"];
    assert Join(parts[2..], ',') == "c,d";
    assert Join(parts, ',') == "a,b,c,d";
    PiecesOfJoin(parts);
    FourIsNoTriple(|Pieces("a,b,c,d")|);
  }

  lemma FourIsNoTriple(n: nat)
    requires n == 4
    ensures n >= 3 && n % 3 != 0
  {
  }

  /** A string without ",," is left as it is by the collapse. */
  lemma {:induction false} CollapseUnchanged(s: string)
    requires !HasCommaPair(s)
    ensures CollapseCommaPairs(s) == s
  {
    if s != [] {
      CollapseUnchanged(s[1..]);
    }
  }

  /** Joining non-empty comma-free fields with "," produces no ",,". */
  lemma {:induction false} JoinHasNoCommaPair(parts: seq<string>)
    requires forall i :: 0 <= i < |parts| ==> parts[i] != [] && ',' !in parts[i]
    ensures !HasCommaPair(Join(parts, ','))
  {
    if |parts| == 1 {
      NoCommaNoPair(parts[0]);
    } else if |parts| > 1 {
      JoinHasNoCommaPair(parts[1..]);
      var rest := Join(parts[1..], ',');
      assert rest != [] && rest[0] != ',' by {
        assert rest[..|parts[1]|] == parts[1] || |parts| == 2;
      }
      NoPairAcross(parts[0], rest);
    }
  }

  lemma {:induction false} NoCommaNoPair(s: string)
    requires ',' !in s
    ensures !HasCommaPair(s)
  {
    if s != [] {
      NoCommaNoPair(s[1..]);
    }
  }

  /** `p + "," + t` has no ",," when `p` is a non-empty comma-free field and `t` has none and does not start with ','. */
  lemma {:induction false} NoPairAcross(p: string, t: string)
    requires p != [] && ',' !in p
    requires t != [] && t[0] != ',' && !HasCommaPair(t)
    ensures !HasCommaPair(p + [','] + t)
  {
    var s := p + [','] + t;
    if |p| == 1 {
      assert s[1..] == [','] + t;
      assert s[1..][1..] == t;
    } else {
      NoPairAcross(p[1..], t);
      assert s[1..] == p[1..] + [','] + t;
    }
  }

  /**
   * Round trip: joining non-empty fields that hold neither ',' nor a newline
   * with "," and parsing gives the fields back as the pieces.
   */
  lemma PiecesOfJoin(parts: seq<string>)
    requires |parts| > 0
    requires forall i :: 0 <= i < |parts| ==> parts[i] != [] && ',' !in parts[i] && '\n' !in parts[i]
    ensures Pieces(Join(parts, ',')) == parts
  {
    var s := Join(parts, ',');
    JoinHasNoNewline(parts);
    assert ReplaceChar(s, '\n', ',') == s;
    JoinHasNoCommaPair(parts);
    CollapseUnchanged(s);
    SplitJoin(parts, ',');
  }

  lemma {:induction false} JoinHasNoNewline(parts: seq<string>)
    requires forall i :: 0 <= i < |parts| ==> '\n' !in parts[i]
    ensures '\n' !in Join(parts, ',')
  {
    if |parts| > 1 {
      JoinHasNoNewline(parts[1..]);
    }
  }

  /** The sample row: one professor, with the id and workload left untrimmed. */
  lemma SampleProfessor()
    ensures Pieces("RENAN FERNANDES KOZAN, 300276, 60") == ["RENAN FERNANDES KOZAN", " 300276", " 60"]
  {
    var parts := ["RENAN FERNANDES KOZAN", " 300276", " 60"];
    assert Join(parts[1..], ',') == " 300276, 60";
    assert Join(parts, ',') == "RENAN FERNANDES KOZAN, 300276, 60";
    PiecesOfJoin(parts);
  }

  /** `parse_semester`: every "/" becomes "."; nothing else changes and the length is kept. */
  function ParseSemester(value: string): (r: string)
    ensures |r| == |value| && '/' !in r
    ensures forall i :: 0 <= i < |value| ==> r[i] == (if value[i] == '/' then '.' else value[i])
  {
    ReplaceChar(value, '/', '.')
  }

  /** The sample semester "2023/2" becomes "2023.2". */
  lemma SampleSemester()
    ensures ParseSemester("2023/2") == "2023.2"
  {
  }
}
