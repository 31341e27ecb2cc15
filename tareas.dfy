/**
 * The task record and the pure meaning of every operation on the task
 * list: what each one turns the list into, and the read-only queries
 * (the status-and-category filter and the pending counter).
 */
module Tareas {
  import opened Wrappers
  import opened Sequences
  import opened JsText

  /**
   * One task. `fecha` is the due day (None when the date field was left
   * empty); `categoria` and `prioridad` are the labels picked in the form.
   */
  datatype Tarea = Tarea(
    id: int,
    texto: string,
    fecha: Option<int>,
    categoria: string,
    prioridad: string,
    completada: bool)

  /** The identifiers of a list, in list order. */
  function Ids(ts: seq<Tarea>): (r: seq<int>)
    ensures |r| == |ts|
    ensures forall i :: 0 <= i < |ts| ==> r[i] == ts[i].id
  {
    seq(|ts|, i requires 0 <= i < |ts| => ts[i].id)
  }

  /** No two tasks share an identifier. */
  ghost predicate IdsUnicos(ts: seq<Tarea>) {
    forall i, j :: 0 <= i < j < |ts| ==> ts[i].id != ts[j].id
  }

  /** A text as the form and the edit prompt store it: trimmed and not empty. */
  predicate TextoLimpio(s: string) {
    s != [] && Trim(s) == s
  }

  /** The invariant every operation keeps: unique identifiers and clean texts. */
  ghost predicate ListaValida(ts: seq<Tarea>) {
    && IdsUnicos(ts)
    && forall i :: 0 <= i < |ts| ==> TextoLimpio(ts[i].texto)
  }

  /** Trimming a non-blank input yields a text the invariant accepts. */
  lemma TrimEsLimpio(s: string)
    requires !IsBlank(s)
    ensures TextoLimpio(Trim(s))
  {
    TrimIdempotent(s);
  }

  // ---------------------------------------------------------------------
  // Add
  // ---------------------------------------------------------------------

  /** The record the add operation puts at the front of the list. */
  function Nueva(id: int, texto: string, fecha: Option<int>, categoria: string, prioridad: string): Tarea {
    Tarea(id, texto, fecha, categoria, prioridad, false)
  }

  /** Adding a task with a fresh identifier and a clean text keeps the invariant. */
  lemma AgregarConservaValida(ts: seq<Tarea>, t: Tarea)
    requires ListaValida(ts) && t.id !in Ids(ts) && TextoLimpio(t.texto)
    ensures ListaValida([t] + ts)
  {
    PrefijarIdsUnicos(ts, t);
    var r := [t] + ts;
    assert forall i :: 1 <= i < |r| ==> r[i] == ts[i - 1];
  }

  /** Putting a task with a fresh identifier in front keeps the identifiers unique. */
  lemma PrefijarIdsUnicos(ts: seq<Tarea>, t: Tarea)
    requires IdsUnicos(ts) && t.id !in Ids(ts)
    ensures IdsUnicos([t] + ts)
  {
    var r := [t] + ts;
    forall i, j | 0 <= i < j < |r| ensures r[i].id != r[j].id {
      if i == 0 {
        assert r[j].id == Ids(ts)[j - 1];
      } else {
        assert r[i] == ts[i - 1] && r[j] == ts[j - 1];
      }
    }
  }

  /** A new task is pending, so adding one raises the pending count by one. */
  lemma AgregarSumaPendiente(ts: seq<Tarea>, id: int, texto: string, fecha: Option<int>, categoria: string, prioridad: string)
    ensures Pendientes([Nueva(id, texto, fecha, categoria, prioridad)] + ts) == Pendientes(ts) + 1
  {
    var t := Nueva(id, texto, fecha, categoria, prioridad);
    assert ([t] + ts)[1..] == ts;
  }

  // ---------------------------------------------------------------------
  // Edit
  // ---------------------------------------------------------------------

  /** `tareas.find(t => t.id === id)`: the position of the first task with that identifier. */
  function IndiceDe(ts: seq<Tarea>, id: int): (k: nat)
    requires id in Ids(ts)
    ensures k < |ts| && ts[k].id == id
    ensures forall j :: 0 <= j < k ==> ts[j].id != id
  {
    if ts[0].id == id then 0
    else
      assert Ids(ts) == [ts[0].id] + Ids(ts[1..]);
      1 + IndiceDe(ts[1..], id)
  }

  /** The list after the found task's text is replaced by `texto`. */
  function Editadas(ts: seq<Tarea>, id: int, texto: string): seq<Tarea>
    requires id in Ids(ts)
  {
    var k := IndiceDe(ts, id);
    ts[k := ts[k].(texto := texto)]
  }

  /**
   * Editing changes the text of the task with that identifier and nothing
   * else: the other tasks, the order and every other field stay as they were.
   */
  lemma EditadasSoloTexto(ts: seq<Tarea>, id: int, texto: string)
    requires IdsUnicos(ts) && id in Ids(ts)
    ensures |Editadas(ts, id, texto)| == |ts|
    ensures forall i :: 0 <= i < |ts| && ts[i].id == id ==> Editadas(ts, id, texto)[i] == ts[i].(texto := texto)
    ensures forall i :: 0 <= i < |ts| && ts[i].id != id ==> Editadas(ts, id, texto)[i] == ts[i]
  {
  }

  /** Editing to a clean text keeps the invariant. */
  lemma EditarConservaValida(ts: seq<Tarea>, id: int, texto: string)
    requires ListaValida(ts) && id in Ids(ts) && TextoLimpio(texto)
    ensures ListaValida(Editadas(ts, id, texto))
  {
    var r := Editadas(ts, id, texto);
    assert forall i :: 0 <= i < |ts| ==> r[i].id == ts[i].id;
  }

  // ---------------------------------------------------------------------
  // Toggle
  // ---------------------------------------------------------------------

  /** One element of `tareas.map(...)`: flips `completada` when the identifier matches. */
  function Alternar(t: Tarea, id: int): Tarea {
    if t.id == id then t.(completada := !t.completada) else t
  }

  /**
   * `tareas.map(...)` in the toggle operation: same length and order, the
   * completion flag flipped exactly on the tasks whose identifier matches,
   * every other field and every other task untouched.
   */
  function Alternadas(ts: seq<Tarea>, id: int): (r: seq<Tarea>)
    ensures |r| == |ts|
    ensures forall i :: 0 <= i < |ts| && ts[i].id == id ==> r[i] == ts[i].(completada := !ts[i].completada)
    ensures forall i :: 0 <= i < |ts| && ts[i].id != id ==> r[i] == ts[i]
  {
    if ts == [] then [] else [Alternar(ts[0], id)] + Alternadas(ts[1..], id)
  }

  /** Toggling the same identifier twice restores the original list. */
  lemma {:induction false} AlternarDosVeces(ts: seq<Tarea>, id: int)
    ensures Alternadas(Alternadas(ts, id), id) == ts
  {
    if ts != [] {
      AlternarDosVeces(ts[1..], id);
      var once := Alternadas(ts, id);
      assert once[1..] == Alternadas(ts[1..], id);
    }
  }

  /** Toggling keeps the invariant: identifiers and texts are untouched. */
  lemma AlternarConservaValida(ts: seq<Tarea>, id: int)
    requires ListaValida(ts)
    ensures ListaValida(Alternadas(ts, id))
  {
    var r := Alternadas(ts, id);
    assert forall i :: 0 <= i < |ts| ==> r[i].id == ts[i].id && r[i].texto == ts[i].texto;
  }

  /** Toggling an identifier no task has leaves the list as it was. */
  lemma {:induction false} AlternarAusente(ts: seq<Tarea>, id: int)
    requires id !in Ids(ts)
    ensures Alternadas(ts, id) == ts
  {
    var r := Alternadas(ts, id);
    forall i | 0 <= i < |ts| ensures r[i] == ts[i] {
      assert Ids(ts)[i] == ts[i].id;
    }
  }

  // ---------------------------------------------------------------------
  // Delete
  // ---------------------------------------------------------------------

  /** The predicate `t => t.id !== id` of the delete operation. */
  function DistintoId(id: int): Tarea -> bool {
    (t: Tarea) => t.id != id
  }

  /** `tareas.filter(t => t.id !== id)`. */
  function SinId(ts: seq<Tarea>, id: int): seq<Tarea> {
    Filter(ts, DistintoId(id))
  }

  /**
   * Deleting keeps, in their relative order, exactly the tasks whose
   * identifier differs from `id`; afterwards no task has that identifier,
   * and the kept tasks and the tasks with that identifier add up to the
   * whole list.
   */
  lemma SinIdEspec(ts: seq<Tarea>, id: int)
    ensures IsSubsequence(SinId(ts, id), ts)
    ensures forall i :: 0 <= i < |ts| && ts[i].id != id ==> ts[i] in SinId(ts, id)
    ensures forall t :: t in SinId(ts, id) ==> t in ts && t.id != id
    ensures id !in Ids(SinId(ts, id))
    ensures |SinId(ts, id)| + |Filter(ts, Not(DistintoId(id)))| == |ts|
  {
    var r := SinId(ts, id);
    FilterIsSubsequence(ts, DistintoId(id));
    FilterPartition(ts, DistintoId(id), Not(DistintoId(id)));
    assert forall i :: 0 <= i < |r| ==> r[i].id != id;
  }

  /** Deleting an identifier no task has leaves the list equal to before. */
  lemma SinIdAusente(ts: seq<Tarea>, id: int)
    requires id !in Ids(ts)
    ensures SinId(ts, id) == ts
  {
    assert forall i :: 0 <= i < |ts| ==> Ids(ts)[i] == ts[i].id;
    FilterKeepsAll(ts, DistintoId(id));
  }

  /** With unique identifiers, deleting a present identifier removes exactly one task. */
  lemma {:induction false} SinIdQuitaUna(ts: seq<Tarea>, id: int)
    requires IdsUnicos(ts) && id in Ids(ts)
    ensures |SinId(ts, id)| == |ts| - 1
  {
    assert ts == [ts[0]] + ts[1..];
    assert Ids(ts) == [ts[0].id] + Ids(ts[1..]);
    if ts[0].id == id {
      forall i | 0 <= i < |ts[1..]| ensures ts[1..][i].id != id {
        assert ts[1..][i] == ts[i + 1];
      }
      assert id !in Ids(ts[1..]);
      SinIdAusente(ts[1..], id);
    } else {
      SinIdQuitaUna(ts[1..], id);
    }
  }

  /** Any filter keeps the invariant: it only drops tasks. */
  lemma FilterConservaValida(ts: seq<Tarea>, p: Tarea -> bool)
    requires ListaValida(ts)
    ensures ListaValida(Filter(ts, p))
  {
    FilterIdsUnicos(ts, p);
    var r := Filter(ts, p);
    forall i | 0 <= i < |r| ensures TextoLimpio(r[i].texto) {
      var m :| 0 <= m < |ts| && ts[m] == r[i];
    }
  }

  /** A filter of a list with unique identifiers has unique identifiers. */
  lemma {:induction false} FilterIdsUnicos(ts: seq<Tarea>, p: Tarea -> bool)
    requires IdsUnicos(ts)
    ensures IdsUnicos(Filter(ts, p))
  {
    if ts != [] {
      var rest := ts[1..];
      assert IdsUnicos(rest) by {
        forall i, j | 0 <= i < j < |rest| ensures rest[i].id != rest[j].id {
          assert rest[i] == ts[i + 1] && rest[j] == ts[j + 1];
        }
      }
      FilterIdsUnicos(rest, p);
      if p(ts[0]) {
        var f := Filter(rest, p);
        forall j | 0 <= j < |f| ensures Ids(f)[j] != ts[0].id {
          var m :| 0 <= m < |rest| && rest[m] == f[j];
          assert ts[m + 1] == f[j];
        }
        PrefijarIdsUnicos(f, ts[0]);
      }
    }
  }

  // ---------------------------------------------------------------------
  // Clear completed and the pending counter
  // ---------------------------------------------------------------------

  /** `!tarea.completada` */
  function EsPendiente(t: Tarea): bool {
    !t.completada
  }

  /** `tarea.completada` */
  function EsCompletada(t: Tarea): bool {
    t.completada
  }

  /** `tareas.filter(t => !t.completada)`, the clear-completed operation. */
  function SinCompletadas(ts: seq<Tarea>): seq<Tarea> {
    Filter(ts, EsPendiente)
  }

  /** `tareas.filter(tarea => !tarea.completada).length`, over the whole list. */
  function Pendientes(ts: seq<Tarea>): nat {
    |Filter(ts, EsPendiente)|
  }

  /** The number of completed tasks. */
  function Completadas(ts: seq<Tarea>): nat {
    |Filter(ts, EsCompletada)|
  }

  /** Every task is either pending or completed: the counter is the length minus the completed ones. */
  lemma PendientesMasCompletadas(ts: seq<Tarea>)
    ensures Pendientes(ts) == |ts| - Completadas(ts)
  {
    FilterPartition(ts, EsPendiente, EsCompletada);
  }

  /**
   * Clearing completed tasks leaves no completed task, keeps the pending
   * ones in their order (a subsequence of the list), removes exactly
   * `Completadas(ts)` tasks and leaves the pending count unchanged.
   */
  lemma SinCompletadasEspec(ts: seq<Tarea>)
    ensures forall t :: t in SinCompletadas(ts) ==> !t.completada
    ensures forall i :: 0 <= i < |ts| && !ts[i].completada ==> ts[i] in SinCompletadas(ts)
    ensures IsSubsequence(SinCompletadas(ts), ts)
    ensures |SinCompletadas(ts)| == |ts| - Completadas(ts)
    ensures Pendientes(SinCompletadas(ts)) == Pendientes(ts)
    ensures Completadas(SinCompletadas(ts)) == 0
  {
    var r := SinCompletadas(ts);
    assert forall i :: 0 <= i < |r| ==> !r[i].completada;
    FilterIsSubsequence(ts, EsPendiente);
    PendientesMasCompletadas(ts);
    FilterIdempotent(ts, EsPendiente);
    PendientesMasCompletadas(r);
  }

  // ---------------------------------------------------------------------
  // The status and category filter
  // ---------------------------------------------------------------------

  /** The status test: `'todas'`, or `'pendientes'` on a pending task, or `'completadas'` on a completed one. */
  predicate CumpleEstado(t: Tarea, filtro: string) {
    || filtro == "todas"
    || (filtro == "pendientes" && !t.completada)
    || (filtro == "completadas" && t.completada)
  }

  /** The category test: `'todas'`, or an exact match of the task's category. */
  predicate CumpleCategoria(t: Tarea, categoria: string) {
    categoria == "todas" || t.categoria == categoria
  }

  /** The predicate of `filtrarTareas`: both tests must hold. */
  function Criterio(filtro: string, categoria: string): Tarea -> bool {
    (t: Tarea) => CumpleEstado(t, filtro) && CumpleCategoria(t, categoria)
  }

  /** `filtrarTareas()` for the given filter values. */
  function Filtrar(ts: seq<Tarea>, filtro: string, categoria: string): seq<Tarea> {
    Filter(ts, Criterio(filtro, categoria))
  }

  /**
   * The visible list is an order-preserving subsequence of the tasks, a
   * task of the list is visible iff it passes the status test AND the
   * category test, and the visible and the hidden tasks add up to the
   * whole list.
   */
  lemma FiltrarEspec(ts: seq<Tarea>, filtro: string, categoria: string)
    ensures IsSubsequence(Filtrar(ts, filtro, categoria), ts)
    ensures forall t :: t in Filtrar(ts, filtro, categoria) ==>
              t in ts && CumpleEstado(t, filtro) && CumpleCategoria(t, categoria)
    ensures forall i :: 0 <= i < |ts| && CumpleEstado(ts[i], filtro) && CumpleCategoria(ts[i], categoria) ==>
              ts[i] in Filtrar(ts, filtro, categoria)
    ensures |Filtrar(ts, filtro, categoria)| + |Filter(ts, Not(Criterio(filtro, categoria)))| == |ts|
  {
    var r := Filtrar(ts, filtro, categoria);
    FilterIsSubsequence(ts, Criterio(filtro, categoria));
    FilterPartition(ts, Criterio(filtro, categoria), Not(Criterio(filtro, categoria)));
    assert forall i :: 0 <= i < |r| ==> CumpleEstado(r[i], filtro) && CumpleCategoria(r[i], categoria);
  }

  /** With both filters on `'todas'` every task is shown, in order. */
  lemma FiltrarTodas(ts: seq<Tarea>)
    ensures Filtrar(ts, "todas", "todas") == ts
  {
    FilterKeepsAll(ts, Criterio("todas", "todas"));
  }

  /** A status filter other than the three known values shows nothing. */
  lemma FiltrarDesconocido(ts: seq<Tarea>, filtro: string, categoria: string)
    requires filtro != "todas" && filtro != "pendientes" && filtro != "completadas"
    ensures Filtrar(ts, filtro, categoria) == []
  {
    FilterKeepsNone(ts, Criterio(filtro, categoria));
  }

  /**
   * The pending filter with every category shows exactly the tasks the
   * counter counts, so the two agree; the counter itself never looks at
   * either filter.
   */
  lemma FiltrarPendientes(ts: seq<Tarea>)
    ensures Filtrar(ts, "pendientes", "todas") == Filter(ts, EsPendiente)
    ensures |Filtrar(ts, "pendientes", "todas")| == Pendientes(ts)
  {
    FilterCongruent(ts, Criterio("pendientes", "todas"), EsPendiente);
  }

  /** The predicate `tarea.categoria === categoria`. */
  function EnCategoria(categoria: string): Tarea -> bool {
    (t: Tarea) => t.categoria == categoria
  }

  /**
   * The category filter with every status shows exactly the tasks of that
   * category, in order (a category other than the `'todas'` sentinel).
   */
  lemma FiltrarCategoria(ts: seq<Tarea>, categoria: string)
    requires categoria != "todas"
    ensures Filtrar(ts, "todas", categoria) == Filter(ts, EnCategoria(categoria))
  {
    FilterCongruent(ts, Criterio("todas", categoria), EnCategoria(categoria));
  }
}
