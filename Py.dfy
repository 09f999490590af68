/** Values of the Python runtime that the add-on's code passes around: `None`, the
    exceptions it raises or catches, and the outcome of a call that may raise. */
module Py {

  /** A Python value that may be `None`. */
  datatype Option<+T> = None | Some(value: T) {
    /** `x if x is not None else default`, the idiom behind every "defaults to" parameter. */
    function GetOr(default: T): T {
      match this
      case Some(v) => v
      case None => default
    }
  }

  /** The exceptions raised or caught by the modelled code. */
  datatype Error =
    | CalledProcessError(argv: seq<string>)   // subprocess.run(..., check=True) saw a non-zero exit
    | ModuleNotFoundError(name: string)       // importlib.import_module found no such module
    | TypeError                               // importlib.reload of something that is not a module
    | AttributeError(attr: string)            // attribute lookup on an object that lacks it
    | NameError(name: string)                 // read of a global that was never bound
    | FileNotFoundError(path: string)         // open(path, "rt") of a missing file
    | FileExistsError(path: string)           // os.makedirs of a path that exists
    | OSError(message: string)                // raised explicitly by the add-on
    | ValueError                              // bpy.utils.register_class of a registered class
    | UnknownFileExtension(ext: string)       // the ValueError of PIL's Image.save for an extension it cannot save
    | RuntimeError                            // bpy.utils.unregister_class of an unregistered class

  /** `ModuleNotFoundError` is the only `ImportError` subclass the model raises. */
  predicate IsImportError(e: Error) {
    e.ModuleNotFoundError?
  }

  /** The outcome of a call that returns a `T` or raises. */
  datatype Result<+T> = Ok(value: T) | Err(error: Error)
}
