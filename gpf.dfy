/**
 * The base class of GPF operators (`AbstractOperator`). An operator is
 * created with its service provider interface (SPI), receives its context
 * once through `initialize(context, pm)`, which then runs the subclass's own
 * `initialize(pm)`, and by default implements neither compute method.
 * The context is an opaque collaborator: what it does with a raster request
 * is a parameter of the model.
 */
module Gpf {
  import opened Wrappers

  /** `OperatorSpi`: the operator's name and the class it instantiates. */
  datatype OperatorSpi = OperatorSpi(operatorName: string, operatorClass: string)

  /** `OperatorContext`, opaque. */
  datatype OperatorContext = OperatorContext(id: nat)

  /** `ProgressMonitor`; `NullMonitor` is `ProgressMonitor.NULL`. */
  datatype ProgressMonitor = NullMonitor | Monitor(id: nat)

  datatype Product = Product(name: string)

  /** `java.awt.Rectangle` */
  datatype Rectangle = Rectangle(x: int, y: int, width: int, height: int)

  /** A band or tie-point grid of a product. */
  datatype RasterDataNode = RasterDataNode(name: string)

  /** A sample buffer (`ProductData`) and the number of elements it holds. */
  datatype ProductData = ProductData(id: nat, size: nat)

  datatype Raster = Raster(node: RasterDataNode, rectangle: Rectangle, data: ProductData)

  datatype OperatorError = OperatorException(message: string) | NullPointerException

  /** The arguments of a `context.getRaster(...)` call. */
  datatype RasterRequest = RasterRequest(node: RasterDataNode, rectangle: Rectangle,
                                         buffer: Option<ProductData>, pm: ProgressMonitor)

  /** How the (foreign) context answers a raster request. */
  type RasterService = (OperatorContext, RasterRequest) -> Result<Raster, OperatorError>

  /** The subclass's `initialize(ProgressMonitor)`, seen as a function of the context it finds stored. */
  type InitializeHook = (Option<OperatorContext>, ProgressMonitor) -> Result<Product, OperatorError>

  const NotImplementedBand: string := "not implemented (only Band supported)"
  const NotImplemented: string := "not implemented"

  class AbstractOperator {
    const spi: OperatorSpi
    const initializeHook: InitializeHook
    var context: Option<OperatorContext>

    /** `AbstractOperator(OperatorSpi spi)`; `initializeHook` is the concrete subclass's behaviour. */
    constructor (spi: OperatorSpi, initializeHook: InitializeHook)
      ensures this.spi == spi && this.initializeHook == initializeHook
      ensures context == None
    {
      this.spi := spi;
      this.initializeHook := initializeHook;
      context := None;
    }

    /** `getSpi`: the SPI given to the constructor (a constant field). */
    function GetSpi(): (s: OperatorSpi)
      ensures s == spi
    {
      spi
    }

    /** `getContext`: `null` (None) until `initialize(context, pm)` has stored one. */
    function GetContext(): (c: Option<OperatorContext>)
      reads this
      ensures c == context
    {
      context
    }

    /**
     * `initialize(context, pm)`: stores the context (a `null` one, None, too),
     * then returns what the subclass's `initialize(pm)` returns when it runs
     * with that context stored.
     */
    method Initialize(context: Option<OperatorContext>, pm: ProgressMonitor) returns (r: Result<Product, OperatorError>)
      modifies this
      ensures this.context == context
      ensures r == initializeHook(context, pm)
    {
      this.context := context;
      r := initializeHook(this.context, pm);
    }

    /** `getRaster(node, rectangle)`: delegates to the context with the null progress monitor. */
    method GetRaster(service: RasterService, node: RasterDataNode, rectangle: Rectangle)
      returns (r: Result<Raster, OperatorError>)
      ensures context.None? ==> r == Failure(NullPointerException)
      ensures context.Some? ==> r == service(context.value, RasterRequest(node, rectangle, None, NullMonitor))
    {
      if context.None? {
        return Failure(NullPointerException);
      }
      r := service(context.value, RasterRequest(node, rectangle, None, NullMonitor));
    }

    /**
     * `getRaster(node, rectangle, dataBuffer)`: delegates with the caller's buffer,
     * unchanged, and the null progress monitor; the buffer must hold exactly
     * width * height samples.
     */
    method GetRasterWithBuffer(service: RasterService, node: RasterDataNode, rectangle: Rectangle, dataBuffer: ProductData)
      returns (r: Result<Raster, OperatorError>)
      requires dataBuffer.size == rectangle.width * rectangle.height
      ensures context.None? ==> r == Failure(NullPointerException)
      ensures context.Some? ==> r == service(context.value, RasterRequest(node, rectangle, Some(dataBuffer), NullMonitor))
    {
      if context.None? {
        return Failure(NullPointerException);
      }
      r := service(context.value, RasterRequest(node, rectangle, Some(dataBuffer), NullMonitor));
    }

    /** The default `computeBand`: always throws; it changes nothing (no modifies clause). */
    method ComputeBand(targetRaster: Raster, pm: ProgressMonitor) returns (r: Outcome<OperatorError>)
      ensures r == Fail(OperatorException(NotImplementedBand))
    {
      r := Fail(OperatorException(NotImplementedBand));
    }

    /** The default `computeAllBands`: always throws, with a different message. */
    method ComputeAllBands(targetTileRectangle: Rectangle, pm: ProgressMonitor) returns (r: Outcome<OperatorError>)
      ensures r == Fail(OperatorException(NotImplemented))
    {
      r := Fail(OperatorException(NotImplemented));
    }

    /** The default `dispose`: does nothing. */
    method Dispose()
      ensures context == old(context)
    {
    }
  }

  /** The two default compute methods fail with distinct messages. */
  lemma DefaultComputeErrorsDiffer()
    ensures OperatorException(NotImplementedBand) != OperatorException(NotImplemented)
  {
    assert |NotImplementedBand| != |NotImplemented|;
  }

  /**
   * An operator's life: before `initialize` there is no context; afterwards it is
   * exactly the one supplied, the SPI is still the one given to the constructor,
   * the result is the subclass hook's, the default compute methods still fail
   * and `dispose` keeps the context.
   */
  method Lifecycle(spi: OperatorSpi, hook: InitializeHook, ctx: OperatorContext, pm: ProgressMonitor,
                   raster: Raster, rect: Rectangle)
    returns (contextBefore: Option<OperatorContext>, result: Result<Product, OperatorError>,
             contextAfter: Option<OperatorContext>, spiAfter: OperatorSpi,
             band: Outcome<OperatorError>, all: Outcome<OperatorError>)
    ensures contextBefore == None
    ensures result == hook(Some(ctx), pm)
    ensures contextAfter == Some(ctx)
    ensures spiAfter == spi
    ensures band.Fail? && all.Fail? && band != all
  {
    var op := new AbstractOperator(spi, hook);
    contextBefore := op.GetContext();
    result := op.Initialize(Some(ctx), pm);
    band := op.ComputeBand(raster, pm);
    all := op.ComputeAllBands(rect, pm);
    op.Dispose();
    contextAfter := op.GetContext();
    spiAfter := op.GetSpi();
    DefaultComputeErrorsDiffer();
  }
}
