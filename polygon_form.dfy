/** The metadata editor: a modal form bound to one shape's data, holding two
    editable inputs and reporting a submit or a close to its parent. */
module Form {
  import opened Common

  /** The data the form is bound to: an area, a country and a price. */
  datatype FormData = FormData(area: string, country: string, price: string)

  /** What the form asks of its parent: `onSubmit(country, price)`,
      `onClose()`, or nothing. */
  datatype FormEvent = NoEvent | Submitted(country: string, price: string) | Closed

  /** What the form renders: the two inputs and the read-only area. */
  datatype FormView = FormView(country: string, price: string, area: string)

  class PolygonForm {
    var polygonData: Option<FormData>
    var countryInput: string
    var priceInput: string

    /** Mounting: both inputs start empty, then the resync effect runs once
        for the initial binding. */
    constructor (data: Option<FormData>)
      ensures polygonData == data
      ensures data.Some? ==> countryInput == data.value.country && priceInput == data.value.price
      ensures data.None? ==> countryInput == "" && priceInput == ""
    {
      polygonData := data;
      countryInput, priceInput := "", "";
      new;
      Resync();
    }

    /** The effect keyed on `polygonData`: a non-null binding resets both
        inputs to its country and price; a null binding leaves them. */
    method Resync()
      modifies this
      ensures polygonData == old(polygonData)
      ensures polygonData.Some? ==>
                countryInput == polygonData.value.country && priceInput == polygonData.value.price
      ensures polygonData.None? ==>
                countryInput == old(countryInput) && priceInput == old(priceInput)
    {
      if polygonData.Some? {
        countryInput := polygonData.value.country;
        priceInput := polygonData.value.price;
      }
    }

    /** The parent passes a new `polygonData` object: the binding changes and
        the effect runs again. */
    method Rebind(data: Option<FormData>)
      modifies this
      ensures polygonData == data
      ensures data.Some? ==> countryInput == data.value.country && priceInput == data.value.price
      ensures data.None? ==> countryInput == old(countryInput) && priceInput == old(priceInput)
    {
      polygonData := data;
      Resync();
    }

    /** The country input's `onChange`: only the country input changes. */
    method ChangeCountry(value: string)
      modifies this
      ensures countryInput == value
      ensures priceInput == old(priceInput) && polygonData == old(polygonData)
    {
      countryInput := value;
    }

    /** The price input's `onChange`: only the price input changes. */
    method ChangePrice(value: string)
      modifies this
      ensures priceInput == value
      ensures countryInput == old(countryInput) && polygonData == old(polygonData)
    {
      priceInput := value;
    }

    /** `handleSubmit`. Both inputs are `required`, so the browser submits
        only non-empty values. The inputs are forwarded, once, exactly when
        the form is bound; the form does not close itself. */
    method Submit() returns (e: FormEvent)
      requires countryInput != "" && priceInput != ""
      ensures e.Submitted? <==> polygonData.Some?
      ensures e.Submitted? ==> e.country == countryInput && e.price == priceInput
      ensures !e.Closed?
    {
      if polygonData.Some? {
        e := Submitted(countryInput, priceInput);
      } else {
        e := NoEvent;
      }
    }

    /** The Cancel button: asks the parent to close and never submits. */
    method Cancel() returns (e: FormEvent)
      ensures e.Closed?
    {
      e := Closed;
    }

    /** The rendered form: nothing when unbound; otherwise the current inputs
        and the bound area, which no handler can change. */
    function View(): (v: Option<FormView>)
      reads this
      ensures v.None? <==> polygonData.None?
      ensures v.Some? ==> v.value.country == countryInput && v.value.price == priceInput
      ensures v.Some? ==> v.value.area == polygonData.value.area
    {
      match polygonData
      case None => None
      case Some(d) => Some(FormView(countryInput, priceInput, d.area))
    }
  }
}
