/** `os.path.join` of a directory and one more component, POSIX rules. */
module PathOps {

  function Join(dir: string, name: string): (p: string)
    ensures name != [] && name[0] == '/' ==> p == name
    ensures (name == [] || name[0] != '/') && dir != [] && dir[|dir| - 1] != '/' ==> p == dir + "/" + name
  {
    if name != [] && name[0] == '/' then name
    else if dir == [] || dir[|dir| - 1] == '/' then dir + name
    else dir + "/" + name
  }

  /** Joining keeps the component as the path's suffix, so distinct names give distinct paths. */
  lemma JoinInjective(dir: string, a: string, b: string)
    requires Join(dir, a) == Join(dir, b)
    requires a != [] && a[0] != '/' && b != [] && b[0] != '/'
    ensures a == b
  {
    var pa, pb := Join(dir, a), Join(dir, b);
    assert pa[|pa| - |a|..] == a;
    assert pb[|pb| - |b|..] == b;
  }
}
