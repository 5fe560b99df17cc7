/** Data shared by every part of the plugin library. */
module Common {

  datatype Option<+T> = None | Some(value: T)

  /** `gz::plugin::Info`.  The casting functions of the `interfaces` table turn the address of
      an instance into the address of a base class inside it, so each is kept as its offset;
      `factory` and `deleter` carry no data of their own. */
  datatype Info = Info(name: string,
                       aliases: set<string>,
                       interfaces: map<string, int>,
                       demangledInterfaces: set<string>)
}
