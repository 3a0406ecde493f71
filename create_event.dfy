/** The event-creation page (site/src/create_event/presenter/CreateEventPage.js):
    the required fields of its schema, the request it sends, the busy flag of
    its submit button, and the list of places its select offers. */
module CreateEvent {
  import opened Replies
  import opened Text

  /** The form's values. `local` is the select's value after the schema casts
      it to a number; `None` is a value that is not a number (the select is
      empty before any place is loaded). The empty string is a text field's
      "missing" value. */
  datatype EventForm = EventForm(title: string, description: string, date: string, hour: string,
                                 local: Option<int>)

  /** The values the model gives the form at mount and after `reset()`: the
      form declares no default values, so every text field is empty and the
      place is taken to be unset. What the select really holds after the
      browser's native form reset (its first option, once places are loaded)
      is decided by the form library and is not captured. */
  const BlankForm := EventForm("", "", "", "", None)

  /** One entry of the place list. */
  datatype Place = Place(idPlace: int, description: string)

  /** The arguments handed to the repository's `create`. */
  datatype CreateRequest = CreateRequest(idUser: int, title: string, description: string,
                                         date: string, local: int)

  const TitleRequired := "Insira o título"
  const DescriptionRequired := "Insira uma descrição"
  const DateRequired := "Insira uma data"
  const HourRequired := "Insira a hora"
  const LocalNotANumber := "Escolha um Local ou crie um"
  const EventCreated := "Evento Criado"

  /** The form passes the schema: every text field is filled and the place is a number. */
  predicate FormAccepted(form: EventForm)
  {
    form.title != "" && form.description != "" && form.date != "" && form.hour != "" &&
    form.local.Some?
  }

  /** The messages shown under the fields, one per field the schema rejects,
      in the order the schema declares the fields. */
  function FieldErrors(form: EventForm): (r: seq<string>)
    ensures r == [] <==> FormAccepted(form)
    ensures TitleRequired in r <==> form.title == ""
    ensures DescriptionRequired in r <==> form.description == ""
    ensures DateRequired in r <==> form.date == ""
    ensures HourRequired in r <==> form.hour == ""
    ensures LocalNotANumber in r <==> form.local.None?
  {
    (if form.title == "" then [TitleRequired] else []) +
    (if form.description == "" then [DescriptionRequired] else []) +
    (if form.date == "" then [DateRequired] else []) +
    (if form.hour == "" then [HourRequired] else []) +
    (if form.local.None? then [LocalNotANumber] else [])
  }

  /** The date sent to `create`: the date field, the letter T and the hour field. */
  function EventDate(date: string, hour: string): (r: string)
    ensures |r| == |date| + 1 + |hour|
  {
    date + "T" + hour
  }

  /** Splitting the sent date at its first T gives back the two fields
      exactly when the date field has no T in it (a date input's
      year-month-day text has none). */
  lemma EventDateSplits(date: string, hour: string)
    ensures (SplitFirst(EventDate(date, hour), 'T') == (date, hour)) <==> Free(date, 'T')
  {
    assert EventDate(date, hour) == date + ['T'] + hour;
    SplitJoin(date, 'T', hour);
  }

  /** The state of one mounted `CreateEventPage`, with the form's values and
      the requests it has issued. */
  class CreateEventPage {
    var places: seq<Place>
    var isLoadingButton: bool
    var showAddPlace: bool
    var toasts: seq<Toast>
    var form: EventForm
    var requests: seq<CreateRequest>

    /** `useState([])`, `useState(false)`, `useState(false)` and an empty form. */
    constructor ()
      ensures places == [] && !isLoadingButton && !showAddPlace && toasts == []
      ensures form == BlankForm && requests == []
    {
      places := [];
      isLoadingButton := false;
      showAddPlace := false;
      toasts := [];
      form := BlankForm;
      requests := [];
    }

    /** The user edits the registered inputs. */
    method Edit(values: EventForm)
      modifies this
      ensures form == values
      ensures places == old(places) && isLoadingButton == old(isLoadingButton)
      ensures showAddPlace == old(showAddPlace) && toasts == old(toasts) && requests == old(requests)
    {
      form := values;
    }

    /** `loadAllPlaces`, once `getAll` has resolved with `response`: a reply
      whose message is defined (even an empty one) records one error toast
      and keeps the list; any other reply replaces the list with its data. */
    method LoadAllPlaces(response: Reply<seq<Place>>)
      modifies this
      ensures HasMessage(response) ==>
                places == old(places) && toasts == old(toasts) + [ErrorToast(response.message.value)]
      ensures !HasMessage(response) ==> places == response.data && toasts == old(toasts)
      ensures isLoadingButton == old(isLoadingButton) && showAddPlace == old(showAddPlace)
      ensures form == old(form) && requests == old(requests)
    {
      if HasMessage(response) {
        toasts := toasts + [ErrorToast(response.message.value)];
        return;
      }
      places := response.data;
    }

    /** The plus button opens the new-place dialog. */
    method OpenAddPlace()
      modifies this
      ensures showAddPlace
      ensures places == old(places) && isLoadingButton == old(isLoadingButton)
      ensures toasts == old(toasts) && form == old(form) && requests == old(requests)
    {
      showAddPlace := true;
    }

    /** The dialog's close callback. */
    method CloseAddPlace()
      modifies this
      ensures !showAddPlace
      ensures places == old(places) && isLoadingButton == old(isLoadingButton)
      ensures toasts == old(toasts) && form == old(form) && requests == old(requests)
    {
      showAddPlace := false;
    }

    /** `onAddedLocal`: the dialog closes, then the places are reloaded and
      `response` is what that reload resolved with. */
    method OnAddedLocal(response: Reply<seq<Place>>)
      modifies this
      ensures !showAddPlace
      ensures HasMessage(response) ==>
                places == old(places) && toasts == old(toasts) + [ErrorToast(response.message.value)]
      ensures !HasMessage(response) ==> places == response.data && toasts == old(toasts)
      ensures isLoadingButton == old(isLoadingButton)
      ensures form == old(form) && requests == old(requests)
    {
      showAddPlace := false;
      LoadAllPlaces(response);
    }

    /** `onSubmit` up to its `await`: the button turns busy and `create` is
      called with the user id, the two texts, the combined date and the place. */
    method OnSubmit(idUser: int, data: EventForm)
      requires FormAccepted(data)
      modifies this
      ensures isLoadingButton
      ensures requests == old(requests) +
                [CreateRequest(idUser, data.title, data.description, EventDate(data.date, data.hour),
                               data.local.value)]
      ensures places == old(places) && showAddPlace == old(showAddPlace)
      ensures toasts == old(toasts) && form == old(form)
    {
      var date := EventDate(data.date, data.hour);
      isLoadingButton := true;
      requests := requests + [CreateRequest(idUser, data.title, data.description, date, data.local.value)];
    }

    /** The rest of `onSubmit`, once `create` has resolved with `response`:
      the button is released on both paths; a truthy message records one
      error toast and keeps the form; otherwise (an empty message included)
      one success toast is recorded and the form is reset. */
    method OnCreated(response: Reply<()>)
      modifies this
      ensures !isLoadingButton
      ensures HasTruthyMessage(response) ==>
                toasts == old(toasts) + [ErrorToast(response.message.value)] && form == old(form)
      ensures !HasTruthyMessage(response) ==>
                toasts == old(toasts) + [SuccessToast(EventCreated)] && form == BlankForm
      ensures places == old(places) && showAddPlace == old(showAddPlace) && requests == old(requests)
    {
      isLoadingButton := false;
      if HasTruthyMessage(response) {
        toasts := toasts + [ErrorToast(response.message.value)];
        return;
      }
      toasts := toasts + [SuccessToast(EventCreated)];
      form := BlankForm;
    }

    /** `handleSubmit(onSubmit)`: the handler runs only when the schema
      accepts the current values; otherwise nothing is sent (the field
      messages are `FieldErrors(form)`). */
    method HandleSubmit(idUser: int)
      modifies this
      ensures form == old(form) && places == old(places) && showAddPlace == old(showAddPlace)
      ensures toasts == old(toasts)
      ensures !FormAccepted(old(form)) ==>
                requests == old(requests) && isLoadingButton == old(isLoadingButton)
      ensures FormAccepted(old(form)) ==>
                isLoadingButton &&
                requests == old(requests) +
                  [CreateRequest(idUser, form.title, form.description, EventDate(form.date, form.hour),
                                 form.local.value)]
    {
      if FormAccepted(form) {
        OnSubmit(idUser, form);
      }
    }
  }

  /** A client showing the two message tests side by side: the same reply
      with an empty message is a failure for the place list and a success
      for event creation. */
  method EmptyMessageScenario(idUser: int, loaded: seq<Place>)
  {
    var page := new CreateEventPage();
    var values := EventForm("Show", "Live music", "2024-05-01", "20:00", Some(3));
    page.Edit(values);
    page.HandleSubmit(idUser);
    assert EventDate("2024-05-01", "20:00") == "2024-05-01T20:00";
    assert page.isLoadingButton;
    assert page.requests == [CreateRequest(idUser, "Show", "Live music", "2024-05-01T20:00", 3)];

    page.LoadAllPlaces(Reply(Some(""), loaded));
    assert page.places == [] && page.toasts == [ErrorToast("")];

    page.OnCreated(Reply(Some(""), ()));
    assert !page.isLoadingButton;
    assert page.toasts == [ErrorToast(""), SuccessToast(EventCreated)];
    assert page.form == BlankForm;

    page.OnAddedLocal(Reply(None, loaded));
    assert !page.showAddPlace && page.places == loaded;
  }
}
