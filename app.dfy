/**
 * The task list application state: the module-level variables of the
 * page (the task array, the two filter selections and the value kept in
 * local storage) as one object, with one method per user action.
 */
module App {
  import opened Wrappers
  import opened Sequences
  import opened JsText
  import opened Fechas
  import opened Tareas

  class ListaTareas {
    /** The authoritative list, newest task first. */
    var tareas: seq<Tarea>
    /** The status filter selected by the filter buttons. */
    var filtroActual: string
    /** The category filter selected by the category buttons. */
    var filtroCategoria: string
    /** The list stored under the `'tareas'` storage key; None while the key has never been written. */
    var tareasGuardadas: Option<seq<Tarea>>

    /** Unique identifiers and clean texts throughout the list. */
    ghost predicate Valid()
      reads this
    {
      ListaValida(tareas)
    }

    /** The stored copy is the list in memory. */
    ghost predicate Persistida()
      reads this
    {
      tareasGuardadas == Some(tareas)
    }

    /**
     * Page load: both filters start at `'todas'` and the list is read back
     * from storage when something was stored there, else it starts empty.
     */
    constructor (almacen: Option<seq<Tarea>>)
      ensures tareasGuardadas == almacen
      ensures tareas == (if almacen.Some? then almacen.value else [])
      ensures filtroActual == "todas" && filtroCategoria == "todas"
      ensures almacen.Some? ==> Persistida()
    {
      tareas := [];
      filtroActual := "todas";
      filtroCategoria := "todas";
      tareasGuardadas := almacen;
      new;
      if almacen.Some? {
        tareas := almacen.value;
      }
    }

    /** `guardarTareas()`: the whole list is written to storage. */
    method GuardarTareas()
      modifies this`tareasGuardadas
      ensures Persistida()
    {
      tareasGuardadas := Some(tareas);
    }

    /**
     * `agregarTarea`: refuses a due date before today (the alert, reported
     * here as `agregada == false`) and changes nothing; otherwise puts a
     * pending task with the given fields in front of the list and saves.
     * The identifier stands for `Date.now()` and must be fresh.
     */
    method AgregarTarea(texto: string, fecha: Option<int>, categoria: string, prioridad: string, id: int, hoy: int)
      returns (agregada: bool)
      requires id !in Ids(tareas)
      modifies this`tareas, this`tareasGuardadas
      ensures agregada <==> !FechaPasada(fecha, hoy)
      ensures agregada ==> tareas == [Nueva(id, texto, fecha, categoria, prioridad)] + old(tareas) && Persistida()
      ensures !agregada ==> tareas == old(tareas) && tareasGuardadas == old(tareasGuardadas)
      ensures old(Valid()) && TextoLimpio(texto) ==> Valid()
      ensures old(Persistida()) ==> Persistida()
    {
      if FechaPasada(fecha, hoy) {
        return false;
      }
      var nueva := Nueva(id, texto, fecha, categoria, prioridad);
      if ListaValida(tareas) && TextoLimpio(texto) {
        AgregarConservaValida(tareas, nueva);
      }
      tareas := [nueva] + tareas;
      GuardarTareas();
      agregada := true;
    }

    /**
     * The form's submit handler: trims the typed text and adds a task only
     * when something is left; a blank entry changes nothing.
     */
    method EnviarFormulario(entrada: string, fecha: Option<int>, categoria: string, prioridad: string, id: int, hoy: int)
      requires id !in Ids(tareas)
      modifies this`tareas, this`tareasGuardadas
      ensures IsBlank(entrada) || FechaPasada(fecha, hoy) ==>
                tareas == old(tareas) && tareasGuardadas == old(tareasGuardadas)
      ensures !IsBlank(entrada) && !FechaPasada(fecha, hoy) ==>
                tareas == [Nueva(id, Trim(entrada), fecha, categoria, prioridad)] + old(tareas) && Persistida()
      ensures old(Valid()) ==> Valid()
      ensures old(Persistida()) ==> Persistida()
    {
      var texto := Trim(entrada);
      if texto != "" {
        TrimEsLimpio(entrada);
        var _ := AgregarTarea(texto, fecha, categoria, prioridad, id, hoy);
      }
    }

    /**
     * `editarTarea`: `respuesta` is what the prompt returned (None when it
     * was cancelled). A non-blank answer replaces the found task's text by
     * its trimmed form and saves; a cancelled or blank answer changes
     * nothing. The task must exist: the source dereferences the result of
     * `find` unchecked.
     */
    method EditarTarea(id: int, respuesta: Option<string>)
      requires id in Ids(tareas)
      modifies this`tareas, this`tareasGuardadas
      ensures respuesta.Some? && !IsBlank(respuesta.value) ==>
                tareas == Editadas(old(tareas), id, Trim(respuesta.value)) && Persistida()
      ensures respuesta.None? || IsBlank(respuesta.value) ==>
                tareas == old(tareas) && tareasGuardadas == old(tareasGuardadas)
      ensures old(Valid()) ==> Valid()
      ensures old(Persistida()) ==> Persistida()
    {
      var k := IndiceDe(tareas, id);
      if respuesta.Some? && Trim(respuesta.value) != "" {
        var nuevoTexto := Trim(respuesta.value);
        if ListaValida(tareas) {
          TrimEsLimpio(respuesta.value);
          EditarConservaValida(tareas, id, nuevoTexto);
        }
        tareas := tareas[k := tareas[k].(texto := nuevoTexto)];
        GuardarTareas();
      }
    }

    /** `toggleTarea`: flips the completion flag of the tasks with that identifier and saves. */
    method ToggleTarea(id: int)
      modifies this`tareas, this`tareasGuardadas
      ensures tareas == Alternadas(old(tareas), id) && Persistida()
      ensures old(Valid()) ==> Valid()
    {
      if ListaValida(tareas) {
        AlternarConservaValida(tareas, id);
      }
      tareas := Alternadas(tareas, id);
      GuardarTareas();
    }

    /** `eliminarTarea`: drops the tasks with that identifier and saves. */
    method EliminarTarea(id: int)
      modifies this`tareas, this`tareasGuardadas
      ensures tareas == SinId(old(tareas), id) && Persistida()
      ensures old(Valid()) ==> Valid()
    {
      if ListaValida(tareas) {
        FilterConservaValida(tareas, DistintoId(id));
      }
      tareas := SinId(tareas, id);
      GuardarTareas();
    }

    /**
     * The clear-completed button: when the confirmation is accepted, drops
     * every completed task and saves; otherwise changes nothing.
     */
    method LimpiarCompletadas(confirmado: bool)
      modifies this`tareas, this`tareasGuardadas
      ensures confirmado ==> tareas == SinCompletadas(old(tareas)) && Persistida()
      ensures !confirmado ==> tareas == old(tareas) && tareasGuardadas == old(tareasGuardadas)
      ensures old(Valid()) ==> Valid()
      ensures old(Persistida()) ==> Persistida()
    {
      if confirmado {
        if ListaValida(tareas) {
          FilterConservaValida(tareas, EsPendiente);
        }
        tareas := SinCompletadas(tareas);
        GuardarTareas();
      }
    }

    /** A status filter button: selects the filter; the list and storage are left alone. */
    method CambiarFiltro(filtro: string)
      modifies this`filtroActual
      ensures filtroActual == filtro
    {
      filtroActual := filtro;
    }

    /** A category filter button: selects the category; the list and storage are left alone. */
    method CambiarCategoria(categoria: string)
      modifies this`filtroCategoria
      ensures filtroCategoria == categoria
    {
      filtroCategoria := categoria;
    }

    /**
     * `filtrarTareas()`: the tasks shown, those passing both selected
     * filters, in list order; shown and hidden tasks add up to the list.
     */
    function Visibles(): (r: seq<Tarea>)
      reads this
      ensures IsSubsequence(r, tareas)
      ensures forall t :: t in r ==> t in tareas && CumpleEstado(t, filtroActual) && CumpleCategoria(t, filtroCategoria)
      ensures forall i :: 0 <= i < |tareas| && CumpleEstado(tareas[i], filtroActual) && CumpleCategoria(tareas[i], filtroCategoria) ==>
                tareas[i] in r
    ensures |r| + |Filter(tareas, Not(Criterio(filtroActual, filtroCategoria)))| == |tareas|
    {
      FiltrarEspec(tareas, filtroActual, filtroCategoria);
      Filtrar(tareas, filtroActual, filtroCategoria)
    }

    /** The pending counter: computed on the whole list, whatever the filters. */
    function Contador(): (n: nat)
      reads this
      ensures n == |tareas| - Completadas(tareas)
    {
      PendientesMasCompletadas(tareas);
      Pendientes(tareas)
    }
  }

  /**
   * Reloading the page after a save restores the same list: what a
   * mutation wrote is what the next page load reads.
   */
  method RecargarPagina(app: ListaTareas) returns (recargada: ListaTareas)
    requires app.Persistida()
    ensures recargada.tareas == app.tareas && recargada.Persistida()
    ensures recargada.filtroActual == "todas" && recargada.filtroCategoria == "todas"
  {
    recargada := new ListaTareas(app.tareasGuardadas);
  }
}
