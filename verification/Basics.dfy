/** Values and text helpers shared by the other modules. */
module Basics {

  datatype Option<+T> = None | Some(value: T)

  /** White space in the sense of Unicode, which is what Go's TrimSpace removes. */
  predicate IsSpace(c: char) {
    c in "\t\n\r \U{000B}\U{000C}\U{0085}\U{00A0}\U{1680}\U{2028}\U{2029}\U{202F}\U{205F}\U{3000}" || '\U{2000}' <= c <= '\U{200A}'
  }

  function TrimLeft(s: string): string {
    if s != "" && IsSpace(s[0]) then TrimLeft(s[1..]) else s
  }

  function TrimRight(s: string): string {
    if s != "" && IsSpace(s[|s| - 1]) then TrimRight(s[..|s| - 1]) else s
  }

  function TrimSpace(s: string): string {
    TrimRight(TrimLeft(s))
  }

  /** Blank text holds nothing but white space. */
  predicate Blank(s: string) {
    s == "" || (IsSpace(s[0]) && Blank(s[1..]))
  }

  lemma {:induction false} BlankIsTrimmedEmpty(s: string)
    ensures Blank(s) <==> TrimSpace(s) == ""
    decreases |s|
  {
    if s != "" && IsSpace(s[0]) {
      BlankIsTrimmedEmpty(s[1..]);
    } else if s != "" {
      TrimRightKeepsHead(s);
    }
  }

  lemma {:induction false} TrimRightKeepsHead(s: string)
    requires s != "" && !IsSpace(s[0])
    ensures TrimRight(s) != ""
    decreases |s|
  {
    if IsSpace(s[|s| - 1]) {
      TrimRightKeepsHead(s[..|s| - 1]);
    }
  }

  /** Taking one element off a work list puts it among those done. */
  lemma OneFewer<T>(all: set<T>, todo: set<T>, x: T)
    requires x in todo && todo <= all
    ensures all - (todo - {x}) == all - todo + {x} && x !in all - todo
  {
  }
}
