/**
 * The system-configuration editor: the stored configuration, an edit copy
 * that exists only while editing, the add-form fields, and the save that
 * goes to `/edit` or `/add` depending on whether an edit copy exists.
 */
module Settings {
  import opened Net

  datatype ConfigDto = ConfigDto(maxDocs: int, processTime: int, quantityOfZeros: int)

  /** `/api/SystemConfig/edit` or `/api/SystemConfig/add`. */
  datatype Endpoint = EditEndpoint | AddEndpoint

  /** A POST of `body` as JSON to `endpoint`. */
  datatype SaveRequest = SaveRequest(endpoint: Endpoint, body: ConfigDto)

  const FetchFailed: string := "Failed to fetch system configuration"
  const UpdateFailed: string := "Error updating system configuration"
  const AddFailed: string := "Error adding system configuration"

  /** The request `handleSaveOrUpdate` sends: the edit copy to `/edit` when
      there is one, and otherwise the three add-form values to `/add`. */
  function SaveRequestFor(editable: Option<ConfigDto>, maxDocs: int, processTime: int, quantityOfZeros: int)
    : (r: SaveRequest)
    ensures r.endpoint == EditEndpoint <==> editable.Some?
    ensures editable.Some? ==> r.body == editable.value
    ensures editable.None? ==>
      r.body.maxDocs == maxDocs && r.body.processTime == processTime &&
      r.body.quantityOfZeros == quantityOfZeros
  {
    match editable
    case Some(copy) => SaveRequest(EditEndpoint, copy)
    case None => SaveRequest(AddEndpoint, ConfigDto(maxDocs, processTime, quantityOfZeros))
  }

  /** The "Edit" buttons render while a configuration is shown and no edit copy exists. */
  predicate EditButtonShown(config: Option<ConfigDto>, editable: Option<ConfigDto>)
  {
    config.Some? && editable.None?
  }

  /** "Guardar Cambios" renders inside the configuration table, while an edit copy exists. */
  predicate SaveButtonShown(config: Option<ConfigDto>, editable: Option<ConfigDto>)
  {
    config.Some? && editable.Some?
  }

  /** The add-form renders when no configuration is stored. */
  predicate AddFormShown(config: Option<ConfigDto>)
  {
    config.None?
  }

  /** In every state exactly one of the three controls is on screen. */
  lemma ExactlyOneControl(config: Option<ConfigDto>, editable: Option<ConfigDto>)
    ensures EditButtonShown(config, editable) || SaveButtonShown(config, editable) || AddFormShown(config)
    ensures !(EditButtonShown(config, editable) && SaveButtonShown(config, editable))
    ensures !(EditButtonShown(config, editable) && AddFormShown(config))
    ensures !(SaveButtonShown(config, editable) && AddFormShown(config))
  {
  }

  /** Pressing "Guardar Cambios" always sends the edit copy to `/edit`; the
      add-form always sends its three fields to `/add`. */
  lemma SaveFollowsScreen(config: Option<ConfigDto>, editable: Option<ConfigDto>,
                          maxDocs: int, processTime: int, quantityOfZeros: int)
    ensures SaveButtonShown(config, editable) ==>
      SaveRequestFor(editable, maxDocs, processTime, quantityOfZeros) == SaveRequest(EditEndpoint, editable.value)
    ensures AddFormShown(config) && editable.None? ==>
      SaveRequestFor(editable, maxDocs, processTime, quantityOfZeros) ==
        SaveRequest(AddEndpoint, ConfigDto(maxDocs, processTime, quantityOfZeros))
  {
  }

  /** The state slots of the configuration editor. */
  class SystemConfigView {
    var maxDocs: int
    var processTime: int
    var quantityOfZeros: int
    var config: Option<ConfigDto>
    var editableConfig: Option<ConfigDto>
    var error: string

    constructor ()
      ensures maxDocs == 0 && processTime == 0 && quantityOfZeros == 0
      ensures config == None && editableConfig == None && error == ""
    {
      maxDocs, processTime, quantityOfZeros := 0, 0, 0;
      config, editableConfig := None, None;
      error := "";
    }

    /** `fetchConfig`: an ok response stores the (possibly null) body; any
        failure sets `error` and keeps what was stored. */
    method FetchConfig(outcome: Response<Option<ConfigDto>>)
      modifies this
      ensures editableConfig == old(editableConfig)
      ensures maxDocs == old(maxDocs) && processTime == old(processTime)
      ensures quantityOfZeros == old(quantityOfZeros)
      ensures outcome.Ok? ==> config == outcome.body && error == old(error)
      ensures outcome.NotOk? ==> config == old(config) && error == FetchFailed
      ensures outcome.Threw? ==> config == old(config) && error == CaughtMessage(outcome.thrown, "")
    {
      match outcome {
        case Ok(data) => config := data;
        case NotOk => error := FetchFailed;
        case Threw(t) => error := CaughtMessage(t, "");
      }
    }

    /** The "Edit" button: it toggles the edit copy, which is set to a
        field-for-field copy of the stored configuration when absent. */
    method ToggleEdit()
      requires config.Some?
      modifies this`editableConfig
      ensures old(editableConfig).None? ==>
        editableConfig.Some? &&
        editableConfig.value.maxDocs == config.value.maxDocs &&
        editableConfig.value.processTime == config.value.processTime &&
        editableConfig.value.quantityOfZeros == config.value.quantityOfZeros
      ensures old(editableConfig).Some? ==> editableConfig == None
    {
      editableConfig := if editableConfig.Some? then None else Some(config.value);
    }

    /** The "Documentos Maximos" input while editing. */
    method EditMaxDocs(value: int)
      requires editableConfig.Some?
      modifies this`editableConfig
      ensures editableConfig.Some?
      ensures editableConfig.value.maxDocs == value
      ensures editableConfig.value.processTime == old(editableConfig.value.processTime)
      ensures editableConfig.value.quantityOfZeros == old(editableConfig.value.quantityOfZeros)
    {
      editableConfig := Some(editableConfig.value.(maxDocs := value));
    }

    /** The "Tiempo De Carga" input while editing. */
    method EditProcessTime(value: int)
      requires editableConfig.Some?
      modifies this`editableConfig
      ensures editableConfig.Some?
      ensures editableConfig.value.processTime == value
      ensures editableConfig.value.maxDocs == old(editableConfig.value.maxDocs)
      ensures editableConfig.value.quantityOfZeros == old(editableConfig.value.quantityOfZeros)
    {
      editableConfig := Some(editableConfig.value.(processTime := value));
    }

    /** The "Ceros A La Izquierda" input while editing. */
    method EditQuantityOfZeros(value: int)
      requires editableConfig.Some?
      modifies this`editableConfig
      ensures editableConfig.Some?
      ensures editableConfig.value.quantityOfZeros == value
      ensures editableConfig.value.maxDocs == old(editableConfig.value.maxDocs)
      ensures editableConfig.value.processTime == old(editableConfig.value.processTime)
    {
      editableConfig := Some(editableConfig.value.(quantityOfZeros := value));
    }

    /** The three add-form inputs. */
    method SetFormMaxDocs(value: int)
      modifies this`maxDocs
      ensures maxDocs == value
    {
      maxDocs := value;
    }

    method SetFormProcessTime(value: int)
      modifies this`processTime
      ensures processTime == value
    {
      processTime := value;
    }

    method SetFormQuantityOfZeros(value: int)
      modifies this`quantityOfZeros
      ensures quantityOfZeros == value
    {
      quantityOfZeros := value;
    }

    /** `handleSaveOrUpdate`: the request follows the edit copy; an ok
        response leads to a page reload (`reloads`), anything else sets
        `error` and does not reload. */
    method HandleSaveOrUpdate(outcome: Response<()>) returns (request: SaveRequest, reloads: bool)
      modifies this`error
      ensures request == SaveRequestFor(editableConfig, maxDocs, processTime, quantityOfZeros)
      ensures reloads <==> outcome.Ok?
      ensures outcome.Ok? ==> error == old(error)
      ensures outcome.NotOk? ==> error == (if editableConfig.Some? then UpdateFailed else AddFailed)
      ensures outcome.Threw? ==> error == CaughtMessage(outcome.thrown, "")
    {
      request := SaveRequestFor(editableConfig, maxDocs, processTime, quantityOfZeros);
      reloads := false;
      match outcome {
        case Ok(_) => reloads := true;
        case NotOk => error := if editableConfig.Some? then UpdateFailed else AddFailed;
        case Threw(t) => error := CaughtMessage(t, "");
      }
    }
  }
}
