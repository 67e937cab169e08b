/** The two pieces of browser state the admin gate uses: `localStorage` and the
    router's current path. */
module Browser {
  import opened Outcomes

  /** The `localStorage` key of the admin flag. */
  const AuthKey := "adminAuth"

  const LoginPath := "/admin"
  const DashboardPath := "/admin/dashboard"

  /** `localStorage.getItem(key)`: the stored string, or null. */
  function GetItem(storage: map<string, string>, key: string): (v: Option<string>)
    ensures v.Some? <==> key in storage
    ensures v.Some? ==> v.value == storage[key]
  {
    if key in storage then Some(storage[key]) else None
  }

  class Window {
    var storage: map<string, string>
    var location: string

    constructor (storage: map<string, string>, location: string)
      ensures this.storage == storage && this.location == location
    {
      this.storage := storage;
      this.location := location;
    }
  }
}
