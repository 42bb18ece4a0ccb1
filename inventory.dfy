/** The inventory page: the state filter and its colours, the
    administrator-only controls, the two item forms and the delete
    confirmation. */
module InventoryPage {
  import opened Wrappers
  import opened Text
  import opened Seqs
  import opened Domain
  import opened Auth
  import Api

  // ---------------------------------------------------------------------
  // The list

  function HasEstado(estado: string): Implemento -> bool {
    (imp: Implemento) => imp.estado == estado
  }

  /** `filteredImplementos` */
  function FilteredImplementos(implementos: seq<Implemento>, filterEstado: string): seq<Implemento> {
    if filterEstado == TODOS then implementos else Filter(implementos, HasEstado(filterEstado))
  }

  /** `Todos` shows every item; any other filter shows exactly the items in
      that state, in their order. */
  lemma FilteredImplementosSpec(implementos: seq<Implemento>, filterEstado: string)
    ensures filterEstado == TODOS ==> FilteredImplementos(implementos, filterEstado) == implementos
    ensures filterEstado != TODOS ==>
      FilteredImplementos(implementos, filterEstado) == Filter(implementos, HasEstado(filterEstado))
      && forall imp :: imp in FilteredImplementos(implementos, filterEstado) <==> imp in implementos && imp.estado == filterEstado
  {
    if filterEstado != TODOS {
      forall imp ensures imp in FilteredImplementos(implementos, filterEstado) <==> imp in implementos && imp.estado == filterEstado {
        FilterMembership(implementos, HasEstado(filterEstado), imp);
      }
    }
  }

  const GREEN := "bg-green-100 text-green-800"
  const YELLOW := "bg-yellow-100 text-yellow-800"
  const RED := "bg-red-100 text-red-800"
  const GRAY := "bg-gray-100 text-gray-800"

  /** `getEstadoColor` */
  function EstadoColor(estado: string): string {
    if estado == DISPONIBLE then GREEN
    else if estado == PRESTADO then YELLOW
    else if estado == MANTENIMIENTO then RED
    else GRAY
  }

  /** The three item states get three different classes, and everything
      else the gray one. */
  lemma EstadoColorSpec(estado: string)
    ensures EstadoColor(estado) == GREEN <==> estado == DISPONIBLE
    ensures EstadoColor(estado) == YELLOW <==> estado == PRESTADO
    ensures EstadoColor(estado) == RED <==> estado == MANTENIMIENTO
    ensures EstadoColor(estado) == GRAY <==> !IsImplementoEstado(estado)
  {}

  // ---------------------------------------------------------------------
  // Administrator-only controls

  /** What the page offers a user: its title, the new-item button, the
      edit and delete buttons on each card, and the two dialogs (given
      whether each was opened and which item is being edited). */
  datatype Controles = Controles(
    titulo: string,
    nuevo: bool,
    editarEliminar: bool,
    crearAbierto: bool,
    editarAbierto: bool)

  function ControlesFor(user: Option<User>, showCreateModal: bool, showEditModal: bool,
                        implementoToEdit: Option<Implemento>): Controles {
    var admin := IsAdmin(user);
    Controles(
      if admin then "Gestión de Inventario" else "Inventario",
      admin,
      admin,
      showCreateModal && admin,
      showEditModal && admin && implementoToEdit.Some?)
  }

  /** Every control that changes the inventory is there only for an
      administrator, whatever the dialog flags say; an administrator has
      the buttons and the dialogs open as requested. */
  lemma ControlesSpec(user: Option<User>, showCreateModal: bool, showEditModal: bool,
                      implementoToEdit: Option<Implemento>)
    ensures var c := ControlesFor(user, showCreateModal, showEditModal, implementoToEdit);
      (c.nuevo || c.editarEliminar || c.crearAbierto || c.editarAbierto)
      ==> user.Some? && ToLower(user.value.role) == "admin"
    ensures user.Some? && ToLower(user.value.role) == "admin" ==>
      var c := ControlesFor(user, showCreateModal, showEditModal, implementoToEdit);
      c.nuevo && c.editarEliminar && c.crearAbierto == showCreateModal
      && c.editarAbierto == (showEditModal && implementoToEdit.Some?)
      && c.titulo == "Gestión de Inventario"
  {
    if user.Some? {
      IsAdminIff(user.value);
    }
  }

  // ---------------------------------------------------------------------
  // The forms

  /** The keys of a multipart form, in order. */
  function Keys(fields: seq<(string, Api.FormValue)>): (r: seq<string>)
    ensures |r| == |fields|
    ensures forall i :: 0 <= i < |r| ==> r[i] == fields[i].0
  {
    if fields == [] then [] else [fields[0].0] + Keys(fields[1..])
  }

  /** The image part, when a file was chosen. */
  function ImagenPart(imagen: Option<string>): seq<(string, Api.FormValue)> {
    if imagen.Some? then [("imagen", Api.File(imagen.value))] else []
  }

  /** The create dialog's `handleSubmit` builds its form by appending the
      name, the category, the description and, if one was chosen, the
      image: never a state, which the server decides. */
  method CreateFormData(nombre: string, categoria: string, descripcion: string, imagen: Option<string>)
    returns (formData: seq<(string, Api.FormValue)>)
    ensures |formData| == 3 + |ImagenPart(imagen)|
    ensures formData[..3] == [("nombre", Api.Text(nombre)), ("categoria", Api.Text(categoria)),
                              ("descripcion", Api.Text(descripcion))]
    ensures formData[3..] == ImagenPart(imagen)
    ensures Keys(formData) == ["nombre", "categoria", "descripcion"] + (if imagen.Some? then ["imagen"] else [])
    ensures "estado" !in Keys(formData)
  {
    formData := [];
    formData := formData + [("nombre", Api.Text(nombre))];
    formData := formData + [("categoria", Api.Text(categoria))];
    formData := formData + [("descripcion", Api.Text(descripcion))];
    if imagen.Some? {
      formData := formData + [("imagen", Api.File(imagen.value))];
    }
    assert Keys(formData)[3..] == Keys(formData[3..]);
  }

  /** The edit dialog's fields. */
  datatype EditForm = EditForm(
    nombre: string,
    categoria: string,
    descripcion: string,
    estado: string,
    imagen: Option<string>)

  /** The edit dialog opens on the item's current values and no image. */
  function EditFormInit(imp: Implemento): (f: EditForm)
    ensures f.imagen == None
  {
    EditForm(imp.nombre, imp.categoria, imp.descripcion, imp.estado, None)
  }

  /** The edit dialog's `handleSubmit`: the same four text parts as the
      create form plus the state, then the image if one was chosen. */
  method EditFormData(form: EditForm) returns (formData: seq<(string, Api.FormValue)>)
    ensures |formData| == 4 + |ImagenPart(form.imagen)|
    ensures formData[..4] == [("nombre", Api.Text(form.nombre)), ("categoria", Api.Text(form.categoria)),
                              ("descripcion", Api.Text(form.descripcion)), ("estado", Api.Text(form.estado))]
    ensures formData[4..] == ImagenPart(form.imagen)
    ensures Keys(formData) == ["nombre", "categoria", "descripcion", "estado"] + (if form.imagen.Some? then ["imagen"] else [])
  {
    formData := [];
    formData := formData + [("nombre", Api.Text(form.nombre))];
    formData := formData + [("categoria", Api.Text(form.categoria))];
    formData := formData + [("descripcion", Api.Text(form.descripcion))];
    formData := formData + [("estado", Api.Text(form.estado))];
    if form.imagen.Some? {
      formData := formData + [("imagen", Api.File(form.imagen.value))];
    }
    assert Keys(formData)[4..] == Keys(formData[4..]);
  }

  /** Submitting the edit dialog untouched sends back exactly the item's
      current name, category, description and state, and no image. */
  method EditUnchanged(imp: Implemento) returns (formData: seq<(string, Api.FormValue)>)
    ensures formData == [("nombre", Api.Text(imp.nombre)), ("categoria", Api.Text(imp.categoria)),
                         ("descripcion", Api.Text(imp.descripcion)), ("estado", Api.Text(imp.estado))]
  {
    formData := EditFormData(EditFormInit(imp));
  }

  // ---------------------------------------------------------------------
  // Deleting

  const ESTE_IMPLEMENTO := "este implemento"

  /** `implementos.find(imp => imp.id === id)` */
  function FindById(implementos: seq<Implemento>, id: nat): (r: Option<Implemento>)
    ensures r.Some? ==> r.value in implementos && r.value.id == id
    ensures r.None? <==> forall imp :: imp in implementos ==> imp.id != id
  {
    if implementos == [] then None
    else if implementos[0].id == id then Some(implementos[0])
    else FindById(implementos[1..], id)
  }

  /** `find` returns the first item, in list order, that has the id. */
  lemma {:induction false} FindByIdFirst(implementos: seq<Implemento>, id: nat, k: nat)
    requires k < |implementos| && implementos[k].id == id
    requires forall j :: 0 <= j < k ==> implementos[j].id != id
    ensures FindById(implementos, id) == Some(implementos[k])
  {
    if k > 0 {
      FindByIdFirst(implementos[1..], id, k - 1);
    }
  }

  /** The name shown in the question: the item's, or a stand-in when the
      item is not in the list or its name is empty. */
  function NombreParaConfirmar(implementos: seq<Implemento>, id: nat): string {
    var found := FindById(implementos, id);
    if found.Some? && found.value.nombre != "" then found.value.nombre else ESTE_IMPLEMENTO
  }

  const PREGUNTA_ANTES := "¿Estás seguro de que deseas eliminar \""
  const PREGUNTA_DESPUES := "\"?\n\nEsta acción no se puede deshacer y el implemento será eliminado permanentemente."

  function PreguntaEliminar(nombre: string): string {
    PREGUNTA_ANTES + nombre + PREGUNTA_DESPUES
  }

  /** `handleDelete`: asks the question (the answer is a parameter) and
      issues the delete call for that id only when it is confirmed. */
  method HandleDelete(implementos: seq<Implemento>, id: nat, confirm: string -> bool)
    returns (pregunta: string, call: Option<Api.Call>)
    ensures pregunta == PreguntaEliminar(NombreParaConfirmar(implementos, id))
    ensures call.Some? <==> confirm(pregunta)
    ensures call.Some? ==> call.value == Api.DeleteImplemento(id)
  {
    var implemento := FindById(implementos, id);
    var nombre := if implemento.Some? && implemento.value.nombre != "" then implemento.value.nombre else ESTE_IMPLEMENTO;
    assert nombre == NombreParaConfirmar(implementos, id);
    pregunta := PreguntaEliminar(nombre);
    if !confirm(pregunta) {
      return pregunta, None;
    }
    call := Some(Api.DeleteImplemento(id));
  }

  /** The question names the first item with that id when it has a name,
      and uses the stand-in when that item's name is empty. */
  lemma NombreParaConfirmarSpec(implementos: seq<Implemento>, id: nat, k: nat)
    requires k < |implementos| && implementos[k].id == id
    requires forall j :: 0 <= j < k ==> implementos[j].id != id
    ensures NombreParaConfirmar(implementos, id) ==
      if implementos[k].nombre != "" then implementos[k].nombre else ESTE_IMPLEMENTO
  {
    FindByIdFirst(implementos, id, k);
  }

  /** An id that no listed item carries is asked about with the stand-in. */
  lemma NombreParaConfirmarMissing(implementos: seq<Implemento>, id: nat)
    requires forall imp :: imp in implementos ==> imp.id != id
    ensures NombreParaConfirmar(implementos, id) == ESTE_IMPLEMENTO
  {}
}
