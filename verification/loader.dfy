/** Splitting of qualified names in geocamUtil/loader.py. The imports and
    attribute lookups that follow each split are outside the model; only the
    string handling that decides the module and class names is kept. */
module Loader {
  import opened Wrappers
  import opened Strings

  /** `getModClass`: cut `name` at its last dot into a module path and a
      class name; a name without a dot is all module path. */
  function GetModClass(name: string): (r: (string, string))
    ensures '.' !in name ==> r == (name, "")
    ensures '.' in name ==> r.0 + "." + r.1 == name && '.' !in r.1
  {
    var dot := RFind(name, '.');
    if dot == -1 then (name, "")
    else
      assert name == name[..dot] + "." + name[dot + 1..];
      (name[..dot], name[dot + 1..])
  }

  /** The split that `getClassByName` unpacks into module and class name:
      `rsplit('.', 1)` must give two pieces, otherwise the unpacking raises
      before anything is imported. */
  function ClassByNameParts(qualifiedName: string): (r: Result<(string, string)>)
    ensures r.Ok? <==> '.' in qualifiedName
    ensures r.Err? ==> r.error == ValueError
    ensures r.Ok? ==> r.value.0 + "." + r.value.1 == qualifiedName && '.' !in r.value.1
  {
    var parts := RSplitOnce(qualifiedName, '.');
    if |parts| != 2 then Err(ValueError)
    else
      assert qualifiedName == parts[0] + "." + parts[1];
      Ok((parts[0], parts[1]))
  }

  /** The split that `getFormByName` unpacks: `split('.', 2)` must give three
      pieces; the first two, joined by a dot again, name the forms module and
      the rest (which may hold further dots) names the class. */
  function FormByNameParts(qualifiedName: string): (r: Result<(string, string)>)
    ensures r.Err? ==> r.error == ValueError
  {
    var parts := SplitMax(qualifiedName, '.', 2);
    if |parts| != 3 then Err(ValueError)
    else Ok((parts[0] + "." + parts[1], parts[2]))
  }

  /** `getClassByName` and `getModClass` agree on every name with a dot; on a
      name without one, `getModClass` answers and `getClassByName` fails. */
  lemma ClassByNameAgreesWithGetModClass(qualifiedName: string)
    ensures ClassByNameParts(qualifiedName).Ok? ==>
      ClassByNameParts(qualifiedName).value == GetModClass(qualifiedName)
    ensures ClassByNameParts(qualifiedName).Err? <==> GetModClass(qualifiedName).1 == "" && '.' !in qualifiedName
  {
    if '.' in qualifiedName {
      var (p, s) := GetModClass(qualifiedName);
      var (p', s') := ClassByNameParts(qualifiedName).value;
      LastDotUnique(qualifiedName, p, s, p', s');
    }
  }

  /** A split at a dot that leaves no dot on the right is unique. */
  lemma LastDotUnique(name: string, p: string, s: string, p': string, s': string)
    requires p + "." + s == name && '.' !in s
    requires p' + "." + s' == name && '.' !in s'
    ensures p == p' && s == s'
  {
    var n := |name|;
    forall k | n - |s| <= k < n ensures name[k] != '.' {
      assert name[k] == s[k - (n - |s|)];
    }
    forall k | n - |s'| <= k < n ensures name[k] != '.' {
      assert name[k] == s'[k - (n - |s'|)];
    }
    assert name[n - |s| - 1] == '.' && name[n - |s'| - 1] == '.';
    assert s == name[n - |s|..] && s' == name[n - |s'|..];
    assert p == name[..|p|] && p' == name[..|p'|];
  }

  /** `getFormByName` succeeds exactly on names with at least two dots; then
      the forms module holds exactly one dot and, with the class name, makes
      up the whole name again. */
  lemma FormByNameSplitsAtSecondDot(qualifiedName: string)
    ensures FormByNameParts(qualifiedName).Ok? <==> Count(qualifiedName, '.') >= 2
    ensures FormByNameParts(qualifiedName).Ok? ==>
      && FormByNameParts(qualifiedName).value.0 + "." + FormByNameParts(qualifiedName).value.1 == qualifiedName
      && Count(FormByNameParts(qualifiedName).value.0, '.') == 1
  {
    var q := qualifiedName;
    var i := Find(q, '.');
    if i == -1 {
      NoDotName(q);
    } else {
      var j := Find(q[i + 1..], '.');
      if j == -1 {
        OneDotName(q, i);
      } else {
        TwoDotName(q, i, j);
      }
    }
  }

  lemma NoDotName(q: string)
    requires '.' !in q
    ensures FormByNameParts(q).Err? && Count(q, '.') == 0
  {
    CountAbsent(q, '.');
    assert SplitMax(q, '.', 2) == [q];
  }

  lemma OneDotName(q: string, i: nat)
    requires i == Find(q, '.') && '.' !in q[i + 1..]
    ensures FormByNameParts(q).Err? && Count(q, '.') == 1
  {
    var t := q[i + 1..];
    CountAroundDot(q, i);
    CountAbsent(q[..i], '.');
    CountAbsent(t, '.');
    assert SplitMax(t, '.', 1) == [t];
    assert SplitMax(q, '.', 2) == [q[..i], t];
  }

  lemma TwoDotName(q: string, i: nat, j: nat)
    requires i == Find(q, '.') && j == Find(q[i + 1..], '.')
    ensures FormByNameParts(q) == Ok((q[..i] + "." + q[i + 1..][..j], q[i + 1..][j + 1..]))
    ensures Count(q, '.') >= 2
    ensures q[..i] + "." + q[i + 1..][..j] + "." + q[i + 1..][j + 1..] == q
    ensures Count(q[..i] + "." + q[i + 1..][..j], '.') == 1
  {
    var t := q[i + 1..];
    SecondDotSplit(q, i, j);
    CountAroundDot(q, i);
    CountAroundDot(t, j);
    CountDotJoin(q[..i], t[..j]);
    RejoinTwoDots(q, i, j);
  }

  /** A name with a dot at `i` and the next dot `j` after it is the three
      pieces around those dots, joined by dots. */
  lemma RejoinTwoDots(q: string, i: nat, j: nat)
    requires i < |q| && q[i] == '.'
    requires j < |q[i + 1..]| && q[i + 1..][j] == '.'
    ensures q[..i] + "." + q[i + 1..][..j] + "." + q[i + 1..][j + 1..] == q
  {
    var t := q[i + 1..];
    assert t == t[..j] + "." + t[j + 1..];
    assert q == q[..i] + "." + t;
  }

  lemma SecondDotSplit(q: string, i: nat, j: nat)
    requires i == Find(q, '.') && j == Find(q[i + 1..], '.')
    ensures SplitMax(q, '.', 2) == [q[..i], q[i + 1..][..j], q[i + 1..][j + 1..]]
  {
    var t := q[i + 1..];
    var u := t[j + 1..];
    assert SplitMax(q, '.', 2) == [q[..i]] + SplitMax(t, '.', 1);
    assert SplitMax(t, '.', 1) == [t[..j]] + SplitMax(u, '.', 0);
    assert SplitMax(u, '.', 0) == [u];
  }

  /** Counting dots on both sides of the dot at `i`. */
  lemma CountAroundDot(s: string, i: nat)
    requires i < |s| && s[i] == '.'
    ensures Count(s, '.') == Count(s[..i], '.') + 1 + Count(s[i + 1..], '.')
  {
    var a, b := s[..i], s[i + 1..];
    assert s == a + ([s[i]] + b);
    CountAppend(a, [s[i]] + b, '.');
    CountAppend([s[i]], b, '.');
  }

  lemma CountDotJoin(a: string, b: string)
    requires '.' !in a && '.' !in b
    ensures Count(a + "." + b, '.') == 1
  {
    assert a + "." + b == a + ("." + b);
    CountAppend(a, "." + b, '.');
    CountAppend(".", b, '.');
    CountAbsent(a, '.');
    CountAbsent(b, '.');
  }
}
