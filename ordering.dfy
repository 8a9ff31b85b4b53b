/** The two orders the queries ask the database for: attendance records by
    `-fecha_hora` (newest first) and professors by `("apellidos", "nombres")`.
    Both are written as insertion sorts and specified by "ordered and a
    permutation of the input". */
module Ordering {
  import opened Models

  /** Non-increasing `fechaHora`. */
  predicate NewestFirst(s: seq<Asistencia>)
  {
    forall i, j :: 0 <= i < j < |s| ==> s[i].fechaHora >= s[j].fechaHora
  }

  function InsertNewest(a: Asistencia, s: seq<Asistencia>): (r: seq<Asistencia>)
    requires NewestFirst(s)
    ensures NewestFirst(r)
    ensures multiset(r) == multiset(s) + multiset{a}
    ensures |r| == |s| + 1
    ensures r[0] == a || (s != [] && r[0] == s[0])
  {
    if s == [] || a.fechaHora >= s[0].fechaHora then [a] + s
    else
      var rest := InsertNewest(a, s[1..]);
      assert s == [s[0]] + s[1..];
      [s[0]] + rest
  }

  /** `order_by("-fecha_hora")`: the same records, newest first. Records with
      equal stamps keep their input order; the database promises no order
      among them. */
  function SortNewestFirst(s: seq<Asistencia>): (r: seq<Asistencia>)
    ensures NewestFirst(r)
    ensures multiset(r) == multiset(s)
    ensures |r| == |s|
  {
    if s == [] then []
    else
      assert s == [s[0]] + s[1..];
      InsertNewest(s[0], SortNewestFirst(s[1..]))
  }

  /** Lexicographic order on text, character by character; a prefix comes first. */
  predicate TextLe(a: string, b: string)
  {
    if a == [] then true
    else if b == [] then false
    else if a[0] != b[0] then a[0] < b[0]
    else TextLe(a[1..], b[1..])
  }

  lemma {:induction false} TextLeTotal(a: string, b: string)
    ensures TextLe(a, b) || TextLe(b, a)
  {
    if a != [] && b != [] && a[0] == b[0] {
      TextLeTotal(a[1..], b[1..]);
    }
  }

  lemma {:induction false} TextLeTransitive(a: string, b: string, c: string)
    requires TextLe(a, b) && TextLe(b, c)
    ensures TextLe(a, c)
  {
    if a != [] && b != [] && c != [] && a[0] == b[0] && b[0] == c[0] {
      TextLeTransitive(a[1..], b[1..], c[1..]);
    }
  }

  lemma {:induction false} TextLeAntisymmetric(a: string, b: string)
    requires TextLe(a, b) && TextLe(b, a)
    ensures a == b
  {
    if a != [] && b != [] {
      TextLeAntisymmetric(a[1..], b[1..]);
      assert a == [a[0]] + a[1..] && b == [b[0]] + b[1..];
    }
  }

  /** `(apellidos, nombres)` ascending. */
  predicate NameLe(p: Profesor, q: Profesor)
  {
    if p.apellidos != q.apellidos then TextLe(p.apellidos, q.apellidos)
    else TextLe(p.nombres, q.nombres)
  }

  lemma NameLeTotal(p: Profesor, q: Profesor)
    ensures NameLe(p, q) || NameLe(q, p)
  {
    TextLeTotal(p.apellidos, q.apellidos);
    TextLeTotal(p.nombres, q.nombres);
  }

  lemma NameLeTransitive(p: Profesor, q: Profesor, o: Profesor)
    requires NameLe(p, q) && NameLe(q, o)
    ensures NameLe(p, o)
  {
    if p.apellidos != q.apellidos && q.apellidos != o.apellidos {
      TextLeTransitive(p.apellidos, q.apellidos, o.apellidos);
      if p.apellidos == o.apellidos {
        TextLeAntisymmetric(p.apellidos, q.apellidos);
      }
    } else if p.apellidos == q.apellidos && q.apellidos == o.apellidos {
      TextLeTransitive(p.nombres, q.nombres, o.nombres);
    }
  }

  predicate ByName(s: seq<Profesor>)
  {
    forall i, j :: 0 <= i < j < |s| ==> NameLe(s[i], s[j])
  }

  function InsertByName(p: Profesor, s: seq<Profesor>): (r: seq<Profesor>)
    requires ByName(s)
    ensures ByName(r)
    ensures multiset(r) == multiset(s) + multiset{p}
    ensures |r| == |s| + 1
  {
    if s == [] then [p]
    else if NameLe(p, s[0]) then
      BeforeHeadBeforeAll(p, s);
      [p] + s
    else
      NameLeTotal(p, s[0]);
      var rest := InsertByName(p, s[1..]);
      assert s == [s[0]] + s[1..];
      HeadBeforeInsertion(s[0], p, s[1..], rest);
      [s[0]] + rest
  }

  lemma BeforeHeadBeforeAll(p: Profesor, s: seq<Profesor>)
    requires ByName(s) && s != [] && NameLe(p, s[0])
    ensures ByName([p] + s)
  {
    forall j | 0 <= j < |s| ensures NameLe(p, s[j]) {
      if j > 0 { NameLeTransitive(p, s[0], s[j]); }
    }
  }

  lemma HeadBeforeInsertion(h: Profesor, p: Profesor, t: seq<Profesor>, rest: seq<Profesor>)
    requires ByName([h] + t) && NameLe(h, p) && ByName(rest)
    requires multiset(rest) == multiset(t) + multiset{p}
    ensures ByName([h] + rest)
  {
    forall k | 0 <= k < |rest| ensures NameLe(h, rest[k]) {
      assert rest[k] in multiset(rest);
      if rest[k] != p {
        assert rest[k] in multiset(t);
        var j :| 0 <= j < |t| && t[j] == rest[k];
        assert ([h] + t)[0] == h && ([h] + t)[j + 1] == t[j];
      }
    }
    var r := [h] + rest;
    forall i, j | 0 <= i < j < |r| ensures NameLe(r[i], r[j]) {
      if i > 0 { assert r[i] == rest[i - 1] && r[j] == rest[j - 1]; }
    }
  }

  /** `order_by("apellidos", "nombres")`: the same professors in name order. */
  function SortByName(s: seq<Profesor>): (r: seq<Profesor>)
    ensures ByName(r)
    ensures multiset(r) == multiset(s)
    ensures |r| == |s|
  {
    if s == [] then []
    else
      assert s == [s[0]] + s[1..];
      InsertByName(s[0], SortByName(s[1..]))
  }
}
