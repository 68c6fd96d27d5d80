/** What the music pages share: the state a handler leaves behind, the role gate every action
    handler starts with, the messages they show, and the two list updates they apply to their
    local copies of the records. */
module Pages {
  import opened Base
  import opened Models
  import opened Catalog

  /** The store and media state after a handler, and the page's own state `view`. */
  datatype Screen<V> = Screen(db: Db, view: V)

  /** `appUser?.role === UserRole.ADMIN_USER`: every action handler returns at once otherwise. */
  predicate IsAdmin(appUser: Option<AppUser>) {
    appUser.Some? && appUser.value.role == AdminUser
  }

  const AddGenreError := "Error al agregar género."
  const UpdateGenreError := "Error al actualizar género."
  const DeleteGenreError := "Error al eliminar género."
  const AddArtistError := "Error al agregar artista."
  const UpdateArtistError := "Error al actualizar artista."
  const DeleteArtistError := "Error al eliminar artista."
  const AddSongError := "Error al agregar canción."
  const UpdateSongError := "Error al actualizar canción."
  const DeleteSongError := "Error al eliminar canción."

  /** `ys` is `xs` with some elements left out: what remains keeps its order. */
  predicate Subsequence<T(==)>(ys: seq<T>, xs: seq<T>)
    decreases |xs|
  {
    |ys| == 0 || (|xs| > 0 && ((ys[0] == xs[0] && Subsequence(ys[1..], xs[1..])) || Subsequence(ys, xs[1..])))
  }

  /** `xs.filter(keep)`. */
  function Filter<T>(xs: seq<T>, keep: T -> bool): (ys: seq<T>)
    ensures Subsequence(ys, xs)
    // Exactly the kept elements remain.
    ensures forall y :: y in ys ==> y in xs && keep(y)
    ensures forall x :: x in xs && keep(x) ==> x in ys
    // Each kept element remains as often as it occurs, each other one not at all.
    // (An element outside `xs` is outside `ys` by the clause above.)
    ensures forall x :: x in xs ==> multiset(ys)[x] == if keep(x) then multiset(xs)[x] else 0
  {
    if |xs| == 0 then []
    else
      var rest := Filter(xs[1..], keep);
      assert xs == [xs[0]] + xs[1..];
      assert xs[0] !in xs[1..] ==> xs[0] !in rest;
      if keep(xs[0]) then assert ([xs[0]] + rest)[1..] == rest; [xs[0]] + rest
      else rest
  }

  /** `xs.map(x => matches(x) ? change(x) : x)`. */
  function MapWhere<T>(xs: seq<T>, matches: T -> bool, change: T -> T): (ys: seq<T>)
    ensures |ys| == |xs|
    // Position by position, a matching element is changed and every other one is kept.
    ensures forall i :: 0 <= i < |xs| && matches(xs[i]) ==> ys[i] == change(xs[i])
    ensures forall i :: 0 <= i < |xs| && !matches(xs[i]) ==> ys[i] == xs[i]
  {
    if |xs| == 0 then []
    else [if matches(xs[0]) then change(xs[0]) else xs[0]] + MapWhere(xs[1..], matches, change)
  }

  /** Filtering keeps the order: it distributes over concatenation. */
  lemma {:induction false} FilterAppend<T>(xs: seq<T>, ys: seq<T>, keep: T -> bool)
    ensures Filter(xs + ys, keep) == Filter(xs, keep) + Filter(ys, keep)
    decreases |xs|
  {
    if |xs| > 0 {
      assert (xs + ys)[1..] == xs[1..] + ys;
      FilterAppend(xs[1..], ys, keep);
    } else {
      assert xs + ys == ys;
    }
  }

  /** A list whose every element is kept is returned unchanged. */
  lemma {:induction false} FilterKeepsAll<T>(xs: seq<T>, keep: T -> bool)
    requires forall i :: 0 <= i < |xs| ==> keep(xs[i])
    ensures Filter(xs, keep) == xs
    decreases |xs|
  {
    if |xs| > 0 {
      FilterKeepsAll(xs[1..], keep);
      assert [xs[0]] + xs[1..] == xs;
    }
  }

  /** Filtering out an element just appended to a list whose every element is kept gives the
      list back. */
  lemma FilterDropsAppended<T>(xs: seq<T>, y: T, keep: T -> bool)
    requires forall i :: 0 <= i < |xs| ==> keep(xs[i])
    requires !keep(y)
    ensures Filter(xs + [y], keep) == xs
  {
    FilterAppend(xs, [y], keep);
    FilterKeepsAll(xs, keep);
    assert Filter([y], keep) == [];
  }
}
