/** deform.form.Button: a submit control with defaulted title and value,
    and the ASCII `str.capitalize` its default title uses. */
module Buttons {
  import opened Wrappers

  datatype Button = Button(name: string, title: string, value: string)

  /** The `name` a Button gets when none is passed. */
  const DefaultButtonName := "submit"

  predicate IsLower(c: char) { 'a' <= c <= 'z' }

  predicate IsUpper(c: char) { 'A' <= c <= 'Z' }

  function ToUpper(c: char): char
  {
    if IsLower(c) then (c as int - 32) as char else c
  }

  function ToLower(c: char): char
  {
    if IsUpper(c) then (c as int + 32) as char else c
  }

  /** Upper-casing leaves no lower-case letter and lower-casing no upper-case
      one; lower-casing forgets any earlier conversion. */
  lemma CaseFacts(c: char)
    ensures !IsLower(ToUpper(c)) && !IsUpper(ToLower(c))
    ensures ToLower(ToUpper(c)) == ToLower(c) && ToLower(ToLower(c)) == ToLower(c)
  {
  }

  /** `a` and `b` differ at most in the case of their letters. */
  ghost predicate SameUpToCase(a: string, b: string)
  {
    |a| == |b| && forall i :: 0 <= i < |a| ==> ToLower(a[i]) == ToLower(b[i])
  }

  /** No lower-case letter first, no upper-case letter after it. */
  ghost predicate IsCapitalized(s: string)
  {
    (|s| > 0 ==> !IsLower(s[0])) && forall i :: 1 <= i < |s| ==> !IsUpper(s[i])
  }

  /** `s` with every letter lower-case: the same string up to case, with no
      upper-case letter left. */
  function LowerAll(s: string): (r: string)
    ensures SameUpToCase(r, s)
    ensures forall i :: 0 <= i < |r| ==> !IsUpper(r[i])
  {
    if s == [] then []
    else
      CaseFacts(s[0]);
      [ToLower(s[0])] + LowerAll(s[1..])
  }

  /** `str.capitalize`: the first character upper-cased, the rest lower-cased. */
  function Capitalize(s: string): (r: string)
    ensures SameUpToCase(r, s)
    ensures IsCapitalized(r)
  {
    if s == [] then []
    else
      var rest := LowerAll(s[1..]);
      var r := [ToUpper(s[0])] + rest;
      CaseFacts(s[0]);
      assert forall i :: 1 <= i < |s| ==> r[i] == rest[i - 1];
      assert forall i :: 0 <= i < |s| ==> CaseOk(r, s, i);
      r
  }

  /** Position i of r matches s up to case, with the case Capitalize wants. */
  ghost predicate CaseOk(r: string, s: string, i: int)
    requires 0 <= i < |r| == |s|
  {
    ToLower(r[i]) == ToLower(s[i]) && (if i == 0 then !IsLower(r[i]) else !IsUpper(r[i]))
  }

  /** Case-equivalent characters: once the case of the first is fixed, it is
      determined by the second. */
  lemma SameLetter(a: char, b: char)
    requires ToLower(a) == ToLower(b)
    ensures !IsLower(a) ==> a == ToUpper(b)
    ensures !IsUpper(a) ==> a == ToLower(b)
  {
  }

  /** Capitalize(s) is the only capitalized string that matches s up to case. */
  lemma CapitalizeUnique(s: string, t: string)
    requires SameUpToCase(t, s) && IsCapitalized(t)
    ensures t == Capitalize(s)
  {
    var r := Capitalize(s);
    forall i | 0 <= i < |t|
      ensures t[i] == r[i]
    {
      SameLetter(t[i], s[i]);
    }
  }

  /** Button(name='submit', title=None, value=None): a title or value left
      as None is defaulted from `name`; an explicit one is kept. */
  function MakeButton(name: string := DefaultButtonName, title: Option<string> := None,
                      value: Option<string> := None): (b: Button)
    ensures b.name == name
    ensures title.Some? ==> b.title == title.value
    ensures title.None? ==> SameUpToCase(b.title, name) && IsCapitalized(b.title)
    ensures value.Some? ==> b.value == value.value
    ensures value.None? ==> b.value == name
  {
    var t := if title.None? then Capitalize(name) else title.value;
    var v := if value.None? then name else value.value;
    Button(name, t, v)
  }

  /** Button() is the 'submit' button titled 'Submit'. */
  lemma DefaultButton()
    ensures MakeButton() == Button("submit", "Submit", "submit")
  {
    CapitalizeUnique("submit", "Submit");
  }
}
